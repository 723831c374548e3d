/** The scheduler: what it keeps in RAM, what it requests, and what it sends to the GPU
    (nucleus/tile/Scheduler.cpp, nucleus/tile/GeometryScheduler.cpp, nucleus/tile/TextureScheduler.cpp). */
module Schedulers {
  import opened Seqs
  import opened Tiles
  import opened Traversal
  import opened Entries
  import opened Caches
  import opened Quads
  import opened Residency

  type RamStore = Store<Quad>

  /** What a visit of the RAM cache lets through to the GPU. */
  function Shippable(refine: Refine, isReady: DataQuad -> bool): DataQuad -> bool {
    (quad: DataQuad) => refine(quad.id) && isReady(quad) && !(quad.id.zoom > 8 && !Joined(quad).status.Good?)
  }

  ghost function SelectedQuads(m: RamStore, refine: Refine, isReady: DataQuad -> bool): set<TileId> {
    Visited(m, Shippable(refine, isReady), ROOT)
  }

  /** The quads selected for the GPU are refined and closed under parents. */
  lemma SelectedIsSelection(m: RamStore, refine: Refine, isReady: DataQuad -> bool)
    requires WellKeyed(m)
    ensures Selection(SelectedQuads(m, refine, isReady), refine)
  {
    forall id | id in SelectedQuads(m, refine, isReady)
      ensures refine(id) && if id.zoom == 0 then id == ROOT else Parent(id) in SelectedQuads(m, refine, isReady)
    {
      VisitedMember(m, Shippable(refine, isReady), id);
    }
  }

  /** Selected is exactly what is cached, refined and ready, has only good tiles below zoom level 8, and hangs below
      the root by selected tiles. */
  lemma SelectedExactly(m: RamStore, refine: Refine, isReady: DataQuad -> bool, id: TileId)
    requires WellKeyed(m)
    ensures id in SelectedQuads(m, refine, isReady)
       <==> id in m && refine(id) && isReady(m[id].data) && (id.zoom <= 8 || AllGood(m[id].data))
            && if id.zoom == 0 then id == ROOT else Parent(id) in SelectedQuads(m, refine, isReady)
  {
    VisitedMember(m, Shippable(refine, isReady), id);
    if id in m {
      JoinedStatus(m[id].data);
    }
  }

  /** Refinable is exactly what is cached and refined and hangs below the root by such tiles. */
  lemma RefinableExactly<T>(m: Store<T>, refine: Refine, id: TileId)
    requires WellKeyed(m)
    ensures id in Visited(m, ByRefine(refine), ROOT)
       <==> id in m && refine(id)
            && if id.zoom == 0 then id == ROOT else Parent(id) in Visited(m, ByRefine(refine), ROOT)
  {
    VisitedMember(m, ByRefine<T>(refine), id);
  }

  /** Restamping the RAM cache changes nothing about the selection. */
  lemma SelectionKept(m: RamStore, seen: set<TileId>, at: Msecs, refine: Refine, isReady: DataQuad -> bool)
    ensures SelectedQuads(Marked(m, seen, at), refine, isReady) == SelectedQuads(m, refine, isReady)
  {
    MarkedAccepted(m, seen, at, Shippable(refine, isReady));
  }

  /** What two updates in a row select: between them the RAM cache only gets the stamps of the first one. */
  ghost predicate SelectedTwice(m: RamStore, refine: Refine, isReady: DataQuad -> bool, at: Msecs,
                                selected: set<TileId>, again: set<TileId>) {
    && selected == SelectedQuads(m, refine, isReady)
    && again == SelectedQuads(Marked(m, selected, at), refine, isReady)
  }

  lemma SelectedTheSame(m: RamStore, refine: Refine, isReady: DataQuad -> bool, at: Msecs,
                        selected: set<TileId>, again: set<TileId>)
    requires WellKeyed(m) && SelectedTwice(m, refine, isReady, at, selected, again)
    ensures again == selected && Selection(selected, refine)
  {
    SelectedIsSelection(m, refine, isReady);
    SelectionKept(m, selected, at, refine, isReady);
  }

  /** Once the refinable part fits, the second of two such updates changes nothing on the GPU. */
  lemma UpdatesConverge(m: RamStore, refine: Refine, isReady: DataQuad -> bool, at: Msecs,
                        selected: set<TileId>, again: set<TileId>, limit: nat, gpu: GpuStore, last: Msecs,
                        now1: Msecs, mid1: GpuStore, gpu1: GpuStore, now2: Msecs, mid2: GpuStore, gpu2: GpuStore)
    requires WellKeyed(m) && SelectedTwice(m, refine, isReady, at, selected, again)
    requires GpuInv(gpu, last) && last < now1 && StopsAt(refine, 100)
    requires GpuUpdate(gpu, selected, refine, limit, now1, mid1, gpu1) && |Refinable(mid1, refine)| <= limit
    requires now1 <= now2 && GpuUpdate(gpu1, again, refine, limit, now2, mid2, gpu2)
    ensures gpu2.Keys == gpu1.Keys
  {
    SelectedTheSame(m, refine, isReady, at, selected, again);
    Converged(gpu, selected, refine, limit, last, now1, mid1, gpu1, now2, mid2, gpu2);
  }

  ghost predicate AllComplete(m: RamStore) {
    forall id :: id in m ==> Complete(m[id].data)
  }

  /** The quads of `quads` are entries of the RAM store, once each, and their ids are `ids`. */
  ghost predicate QuadsFrom(m: RamStore, quads: seq<DataQuad>, ids: set<TileId>) {
    && NoDup(Ids(quads)) && Elems(Ids(quads)) == ids
    && forall q :: q in quads ==> q.id in m && q == m[q.id].data
  }

  /** What is sent may be sent. */
  lemma SentIsShippable(m: RamStore, refine: Refine, isReady: DataQuad -> bool, quads: seq<DataQuad>, ids: set<TileId>)
    requires WellKeyed(m) && QuadsFrom(m, quads, ids) && ids <= SelectedQuads(m, refine, isReady)
    ensures forall q :: q in quads ==> refine(q.id) && isReady(q) && (q.id.zoom <= 8 || AllGood(q))
  {
    forall q | q in quads
      ensures refine(q.id) && isReady(q) && (q.id.zoom <= 8 || AllGood(q))
    {
      var k :| 0 <= k < |quads| && quads[k] == q;
      assert Ids(quads)[k] == q.id && q.id in Elems(Ids(quads));
      SelectedExactly(m, refine, isReady, q.id);
    }
  }

  /** Requested are the refined tiles whose quad is absent or too old. */
  ghost predicate Missing(m: RamStore, refine: Refine, retirementAge: nat, now: Msecs, id: TileId) {
    && Reach(Refined(refine), ROOT, id)
    && (id in m ==> Joined(m[id].data).timestamp + retirementAge <= now)
  }

  /** A quad is too old as soon as one of its tiles is. */
  lemma MissingExactly(m: RamStore, refine: Refine, retirementAge: nat, now: Msecs, id: TileId)
    ensures Missing(m, refine, retirementAge, now, id)
       <==> Reach(Refined(refine), ROOT, id) && (id in m ==> AnyRetired(m[id].data, retirementAge, now))
  {
    if id in m {
      JoinedTimestamp(m[id].data);
    }
  }

  /** The settings that the model uses; geometry defaults to 512 quads on the GPU, textures are made with 1024. */
  datatype Settings = Settings(maxZoomLevel: nat, gpuQuadLimit: nat, ramQuadLimit: nat, retirementAge: nat)

  class Scheduler {
    const clock: Clock
    const ram: Cache<Quad>
    const gpu: Cache<()>
    const maxZoomLevel: nat
    var shouldRefine: Refine
    var gpuQuadLimit: nat
    var ramQuadLimit: nat
    var retirementAge: nat

    ghost predicate Valid()
      reads this, ram, gpu
    {
      && ram.Valid() && gpu.Valid() && ram.clock == clock && gpu.clock == clock
      && StopsAt(shouldRefine, maxZoomLevel)
    }

    constructor (clock: Clock, version: string, settings: Settings, refine: Refine)
      requires StopsAt(refine, settings.maxZoomLevel)
      ensures Valid() && fresh(ram) && fresh(gpu)
      ensures ram.data == map[] && gpu.data == map[] && this.clock == clock && shouldRefine == refine
      ensures settings == Settings(maxZoomLevel, gpuQuadLimit, ramQuadLimit, retirementAge)
    {
      var r := new Cache<Quad>(clock, version);
      var g := new Cache<()>(clock, version);
      this.clock, ram, gpu, maxZoomLevel := clock, r, g, settings.maxZoomLevel;
      shouldRefine, gpuQuadLimit := refine, settings.gpuQuadLimit;
      ramQuadLimit, retirementAge := settings.ramQuadLimit, settings.retirementAge;
    }

    method SetGpuQuadLimit(newLimit: nat)
      modifies this`gpuQuadLimit
      ensures gpuQuadLimit == newLimit
    {
      gpuQuadLimit := newLimit;
    }

    method UpdateCamera(refine: Refine)
      requires Valid() && StopsAt(refine, maxZoomLevel)
      modifies this`shouldRefine
      ensures Valid() && shouldRefine == refine
    {
      shouldRefine := refine;
    }

    /** Good and missing quads are cached, network errors change nothing. */
    method ReceiveQuad(newQuad: DataQuad)
      requires Valid()
      modifies ram`data, clock
      ensures Valid() && old(clock.now) <= clock.now
      ensures ram.data == if Joined(newQuad).status.NetworkError? then old(ram.data)
                          else old(ram.data)[newQuad.id := Fresh(newQuad, clock.now)]
      ensures AnyFailed(newQuad) ==> ram.data == old(ram.data)
      ensures ram.data == old(ram.data)
              ==> AnyFailed(newQuad) || (newQuad.id in old(ram.data) && old(ram.data)[newQuad.id].data == newQuad)
      ensures !AnyFailed(newQuad) ==> newQuad.id in ram.data && ram.data[newQuad.id].data == newQuad
                                      && ram.data[newQuad.id].meta.created == clock.now
    {
      JoinedStatus(newQuad);
      match Joined(newQuad).status
      case Good => ram.Insert(newQuad);
      case NotFound => ram.Insert(newQuad);
      case NetworkError =>
    }

    /** Visits the RAM cache and collects the shippable quads that are not on the GPU yet. */
    method CollectCandidates(isReady: DataQuad -> bool) returns (candidates: seq<DataQuad>, ghost at: Msecs)
      requires Valid()
      modifies ram`data, clock
      ensures Valid() && old(clock.now) <= at == clock.now
      ensures ram.data == Marked(old(ram.data), SelectedQuads(old(ram.data), shouldRefine, isReady), at)
      ensures QuadsFrom(old(ram.data), candidates, SelectedQuads(old(ram.data), shouldRefine, isReady) - gpu.data.Keys)
    {
      var reached := ram.Visit(Shippable(shouldRefine, isReady));
      at := clock.now;
      candidates := [];
      ghost var before := old(ram.data);
      for i := 0 to |reached|
        invariant Valid() && clock.now == at && ram.data == Marked(before, Elems(reached), at)
        invariant QuadsFrom(before, candidates, Elems(reached[..i]) - gpu.data.Keys)
      {
        assert reached[i] in Elems(reached) && reached[i] in before;
        assert ram.data.Keys == before.Keys && ram.data[reached[i]].data == before[reached[i]].data;
        NextCandidate(before, reached, i, candidates, gpu.data.Keys);
        if !gpu.Contains(reached[i]) {
          candidates := candidates + [ram.PeakAt(reached[i])];
        }
      }
      assert reached[..|reached|] == reached;
    }

    /** Inserts the candidates into the GPU cache. */
    method InsertCandidates(candidates: seq<DataQuad>, ghost selected: set<TileId>)
      requires Valid() && Elems(Ids(candidates)) == selected - gpu.data.Keys
      modifies gpu`data, clock
      ensures Valid() && old(clock.now) <= clock.now && Extends(gpu.data, old(gpu.data), selected)
    {
      for i := 0 to |candidates|
        invariant Valid() && old(clock.now) <= clock.now
        invariant gpu.data.Keys == old(gpu.data).Keys + Elems(Ids(candidates)[..i])
        invariant forall id :: id in old(gpu.data) ==> gpu.data[id] == old(gpu.data)[id]
      {
        var ids := Ids(candidates);
        assert ids[..i + 1] == ids[..i] + [candidates[i].id];
        assert ids[i] in Elems(ids);
        gpu.Insert(Named(candidates[i].id, ()));
      }
      assert Ids(candidates)[..|candidates|] == Ids(candidates);
    }

    /** Restamps what the camera refines and keeps the highest stamps. */
    method RefreshGpu() returns (superfluousQuads: seq<Named<()>>)
      requires Valid()
      modifies gpu`data, clock
      ensures Valid() && old(clock.now) <= clock.now
      ensures IsPurge(Marked(old(gpu.data), Refinable(old(gpu.data), shouldRefine), clock.now), gpuQuadLimit, gpu.data)
      ensures gpu.data.Keys <= old(gpu.data).Keys
      ensures Elems(Ids(superfluousQuads)) == old(gpu.data).Keys - gpu.data.Keys
    {
      ghost var before := gpu.data;
      var seen := gpu.Visit(ByRefine(shouldRefine));
      assert gpu.data.Keys == before.Keys;
      superfluousQuads := gpu.Purge(gpuQuadLimit);
    }

    /** One update of the GPU quads, with what `is_ready_to_ship` answers at the moment: the cache follows
        `GpuUpdate`, and the emitted delta is exactly the difference between the cached sets before and after. */
    method UpdateGpuQuads(isReady: DataQuad -> bool)
        returns (added: seq<DataQuad>, deleted: seq<TileId>, ghost mid: GpuStore, ghost at: Msecs)
      requires Valid()
      modifies ram`data, gpu`data, clock
      ensures Valid() && old(clock.now) <= at <= clock.now
      ensures ram.data == Marked(old(ram.data), SelectedQuads(old(ram.data), shouldRefine, isReady), at)
      ensures GpuUpdate(old(gpu.data), SelectedQuads(old(ram.data), shouldRefine, isReady), shouldRefine, gpuQuadLimit,
                        clock.now, mid, gpu.data)
      ensures QuadsFrom(old(ram.data), added, gpu.data.Keys - old(gpu.data).Keys)
      ensures forall q :: q in added
                ==> shouldRefine(q.id) && isReady(q) && (q.id.zoom <= 8 || AllGood(q))
      ensures NoDup(deleted) && Elems(deleted) == old(gpu.data).Keys - gpu.data.Keys
    {
      ghost var selected := SelectedQuads(ram.data, shouldRefine, isReady);
      ghost var before := gpu.data;
      var candidates;
      candidates, at := CollectCandidates(isReady);
      InsertCandidates(candidates, selected);
      mid := gpu.data;
      var superfluousQuads := RefreshGpu();
      added, deleted := CancelDoubles(candidates, superfluousQuads, old(ram.data), selected - before.Keys);
      DeltaIsDifference(before.Keys, selected, gpu.data.Keys);
      SentIsShippable(old(ram.data), shouldRefine, isReady, added, gpu.data.Keys - before.Keys);
    }

    /** Once the RAM cache is 5% over its limit: restamps what the camera refines, then keeps the highest stamps. */
    method PurgeRamCache()
      requires Valid()
      modifies ram`data, clock
      ensures Valid() && old(clock.now) <= clock.now
      ensures |old(ram.data)| <= PurgeThreshold(ramQuadLimit) ==> ram.data == old(ram.data)
      ensures |old(ram.data)| > PurgeThreshold(ramQuadLimit) ==>
                IsPurge(Marked(old(ram.data), Visited(old(ram.data), ByRefine(shouldRefine), ROOT), clock.now),
                        ramQuadLimit, ram.data)
    {
      if |ram.data| <= PurgeThreshold(ramQuadLimit) {
        return;
      }
      var seen := ram.Visit(ByRefine(shouldRefine));
      var purged := ram.Purge(ramQuadLimit);
    }

    /** The refined tiles; their children arrive with them, so the leaves are not listed. */
    method QuadsForCurrentCameraPosition() returns (allInnerNodes: seq<TileId>)
      requires Valid()
      ensures NoDup(allInnerNodes)
      ensures forall id :: id in allInnerNodes <==> Reach(Refined(shouldRefine), ROOT, id)
    {
      allInnerNodes := Inner(shouldRefine, maxZoomLevel, ROOT);
      InnerNoDup(shouldRefine, maxZoomLevel, ROOT);
      forall id
        ensures id in allInnerNodes <==> Reach(Refined(shouldRefine), ROOT, id)
      {
        InnerReached(shouldRefine, maxZoomLevel, ROOT, id);
      }
    }

    /** What is requested from the network: distinct ids of refined quads that are absent or retired. */
    method MissingQuadsForCurrentCamera() returns (missing: seq<TileId>)
      requires Valid()
      modifies clock
      ensures Valid() && NoDup(missing)
      ensures forall id :: id in missing <==> Missing(ram.data, shouldRefine, retirementAge, clock.now, id)
      ensures forall id :: id in missing
                <==> Reach(Refined(shouldRefine), ROOT, id)
                     && (id in ram.data ==> AnyRetired(ram.data[id].data, retirementAge, clock.now))
    {
      var tiles := QuadsForCurrentCameraPosition();
      var currentTime := clock.Read();
      missing := [];
      for i := 0 to |tiles|
        invariant NoDup(missing) && clock.now == currentTime
        invariant forall id :: id in missing ==> id in tiles[..i]
        invariant forall id :: id in missing
                    <==> id in tiles[..i] && Missing(ram.data, shouldRefine, retirementAge, currentTime, id)
      {
        var id := tiles[i];
        assert tiles[..i + 1] == tiles[..i] + [id];
        assert id !in tiles[..i];
        assert id in tiles;
        if !(ram.Contains(id) && Joined(ram.PeakAt(id)).timestamp + retirementAge > currentTime) {
          ElemsOne(id);
          NoDupConcat(missing, [id]);
          missing := missing + [id];
        }
      }
      assert tiles[..|tiles|] == tiles;
      forall id
        ensures Missing(ram.data, shouldRefine, retirementAge, currentTime, id)
           <==> Reach(Refined(shouldRefine), ROOT, id)
                && (id in ram.data ==> AnyRetired(ram.data[id].data, retirementAge, currentTime))
      {
        MissingExactly(ram.data, shouldRefine, retirementAge, currentTime, id);
      }
    }
  }

  // ---- the threshold in single precision ------------------------------------------------------

  const TWO_23: nat := 0x80_0000
  const TWO_24: nat := 0x100_0000

  /** The spacing of the numbers with 24 significant bits around n. */
  function Spacing(n: nat): (u: nat)
    ensures u >= 1 && (n < TWO_24 ==> u == 1) && (n >= TWO_24 ==> u * TWO_23 <= n)
  {
    if n < TWO_24 then 1 else 2 * Spacing(n / 2)
  }

  /** n rounded to 24 significant bits, to nearest and ties to even, as IEEE 754 single precision does. */
  function ToFloat(n: nat): (r: nat)
    ensures n < TWO_24 ==> r == n
    ensures n * TWO_23 <= r * TWO_23 + n && r * TWO_23 <= n * TWO_23 + n
  {
    var u := Spacing(n);
    var q, rest := n / u, n % u;
    QuotientStep(n, u);
    if 2 * rest < u || (2 * rest == u && q % 2 == 0) then n - rest else n - rest + u
  }

  lemma QuotientStep(n: nat, u: nat)
    requires u >= 1
    ensures 0 <= n % u < u && n - n % u >= 0 && (u == 1 ==> n % u == 0)
  {
    assert n == n / u * u + n % u;
    assert n / u >= 0;
    assert n / u * u >= 0;
  }

  /** 1.05f is 8808038 / 2^23. */
  const FACTOR: nat := 8808038

  /** unsigned(float(limit) * 1.05f) */
  function PurgeThreshold(limit: nat): (t: nat)
    ensures limit <= t
    ensures limit <= TWO_24 ==> t <= limit + limit / 20 + 1
  {
    ToFloat(ToFloat(limit) * FACTOR) / TWO_23
  }

  /** Up to 2^18 quads the threshold is 5% over the limit, rounded down; where 5% is a whole number, the rounding of
      1.05f may take one off. Any limit is exceeded by 4% at least. */
  lemma ThresholdExact(limit: nat)
    ensures limit <= 0x4_0000 && limit % 20 != 0 ==> PurgeThreshold(limit) == limit + limit / 20
    ensures limit <= 0x4_0000 ==> limit + limit / 20 - 1 <= PurgeThreshold(limit) <= limit + limit / 20
    ensures 26 * limit <= 25 * (PurgeThreshold(limit) + 1)
  {
    var product := ToFloat(limit) * FACTOR;
    var r := ToFloat(product);
    QuotientStep(r, TWO_23);
    assert r == PurgeThreshold(limit) * TWO_23 + r % TWO_23;
    assert limit == limit / 20 * 20 + limit % 20;
  }

  lemma SpacingOfProduct()
    ensures Spacing(105696456000) == 8192
  {
    assert Spacing(1651507125) == 128;
  }

  /** It does take one off for a limit of 12000. */
  lemma ThresholdRounding()
    ensures PurgeThreshold(12000) == 12599
  {
    SpacingOfProduct();
    assert 12000 * FACTOR == 105696456000;
    assert ToFloat(105696456000) == 105696452608;
  }

  /** Tiles that were inserted and at once purged appear in neither list. */
  method CancelDoubles(candidates: seq<DataQuad>, superfluousQuads: seq<Named<()>>,
                       ghost m: RamStore, ghost ids: set<TileId>)
      returns (added: seq<DataQuad>, deleted: seq<TileId>)
    requires QuadsFrom(m, candidates, ids) && WellKeyed(m)
    ensures QuadsFrom(m, added, ids - Elems(Ids(superfluousQuads)))
    ensures NoDup(deleted) && Elems(deleted) == Elems(Ids(superfluousQuads)) - ids
  {
    var superfluousIds: set<TileId> := set q | q in superfluousQuads :: q.id;
    IdsElems(superfluousQuads);
    ghost var superfluous, cs := superfluousIds, Ids(candidates);
    added := [];
    for i := 0 to |candidates|
      invariant QuadsFrom(m, added, Elems(cs[..i]) - superfluous)
      invariant superfluousIds == superfluous - Elems(cs[..i])
    {
      PrefixNext(cs, i);
      assert candidates[i] in candidates && cs[i] == candidates[i].id;
      NextCandidate(m, cs, i, added, superfluous);
      if candidates[i].id in superfluousIds {
        superfluousIds := superfluousIds - {candidates[i].id};
      } else {
        added := added + [candidates[i]];
      }
    }
    assert cs[..|candidates|] == cs;
    deleted := ListSet(superfluousIds);
  }

  method ListSet(s: set<TileId>) returns (listed: seq<TileId>)
    ensures NoDup(listed) && Elems(listed) == s
  {
    listed := [];
    var remaining := s;
    while remaining != {}
      invariant remaining <= s && NoDup(listed) && Elems(listed) == s - remaining
      decreases remaining
    {
      var id :| id in remaining;
      ElemsOne(id);
      NoDupConcat(listed, [id]);
      listed := listed + [id];
      remaining := remaining - {id};
    }
  }

  lemma IdsElems<T>(quads: seq<Named<T>>)
    ensures Elems(Ids(quads)) == set q | q in quads :: q.id
  {
    forall id | id in Ids(quads)
      ensures id in set q | q in quads :: q.id
    {
      var k :| 0 <= k < |quads| && Ids(quads)[k] == id;
      assert quads[k] in quads;
    }
    forall q | q in quads
      ensures q.id in Ids(quads)
    {
      var k :| 0 <= k < |quads| && quads[k] == q;
      assert Ids(quads)[k] == q.id;
    }
  }

  /** Selected and new minus purged is what came; purged minus selected-and-new is what left. */
  lemma DeltaIsDifference(before: set<TileId>, selected: set<TileId>, after: set<TileId>)
    requires after <= before + selected
    ensures (selected - before) - (before + selected - after) == after - before
    ensures (before + selected - after) - (selected - before) == before - after
  {
  }

  lemma NextCandidate(m: RamStore, reached: seq<TileId>, i: nat, candidates: seq<DataQuad>, onGpu: set<TileId>)
    requires NoDup(reached) && i < |reached| && reached[i] in m && WellKeyed(m)
    requires QuadsFrom(m, candidates, Elems(reached[..i]) - onGpu)
    ensures QuadsFrom(m, if reached[i] in onGpu then candidates else candidates + [m[reached[i]].data],
                      Elems(reached[..i + 1]) - onGpu)
  {
    var id := reached[i];
    assert reached[..i + 1] == reached[..i] + [id];
    ElemsConcat(reached[..i], [id]);
    ElemsOne(id);
    if id !in onGpu {
      assert Ids(candidates + [m[id].data]) == Ids(candidates) + [id];
      assert id !in Elems(reached[..i]);
      NoDupConcat(Ids(candidates), [id]);
    }
  }
}
