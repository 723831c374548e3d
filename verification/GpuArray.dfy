/** The layer allocator of a texture array and the consumers that replay tile deltas into it
    (nucleus/tile/GpuArrayHelper.cpp, gl_engine/TileGeometry.cpp, gl_engine/TextureLayer.cpp). */
module GpuArray {
  import opened Seqs
  import opened Tiles
  import Srs
  import Dictionary

  /** What `add_tile` returns when the array is full: unsigned(-1). */
  const INVALID_LAYER: nat := 0xFFFF_FFFF

  /** A stack of free layers (its end is the top) and the layer of every resident tile. */
  datatype Allocation = Allocation(size: nat, free: seq<nat>, layerOf: map<TileId, nat>)

  ghost predicate FreeBelow(a: Allocation) {
    NoDup(a.free) && forall l :: l in a.free ==> l < a.size
  }

  ghost predicate AssignedBelow(a: Allocation) {
    forall id :: id in a.layerOf ==> a.layerOf[id] < a.size && a.layerOf[id] !in a.free
  }

  ghost predicate Injective(m: map<TileId, nat>) {
    forall i, j {:trigger m[i], m[j]} :: i in m && j in m && m[i] == m[j] ==> i == j
  }

  /** Free and assigned layers are disjoint, listed once, below the size, and together as many as there are. */
  ghost predicate Partitioned(a: Allocation) {
    FreeBelow(a) && AssignedBelow(a) && Injective(a.layerOf) && |a.free| + |a.layerOf| == a.size
  }

  /** So they are a partition of 0..size-1: every layer is either free or taken. */
  lemma PartitionExhaustive(a: Allocation, l: nat)
    requires Partitioned(a) && l < a.size
    ensures l in a.free <==> l !in a.layerOf.Values
  {
    NoDupSize(a.free);
    InjectiveSize(a.layerOf);
    LayersApart(a);
    Complementary(Elems(a.free), a.layerOf.Values, a.size, l);
    assert l in a.free <==> l in Elems(a.free);
  }

  lemma LayersApart(a: Allocation)
    requires FreeBelow(a) && AssignedBelow(a)
    ensures Elems(a.free) !! a.layerOf.Values
    ensures forall l :: l in Elems(a.free) || l in a.layerOf.Values ==> l < a.size
  {
  }

  lemma Complementary(a: set<nat>, b: set<nat>, n: nat, l: nat)
    requires a !! b && |a| + |b| == n && l < n
    requires forall k :: k in a || k in b ==> k < n
    ensures l in a <==> l !in b
  {
    assert |a + b| == |a| + |b|;
    SubsetSize(a + b, Below(n));
    assert l in Below(n);
  }

  lemma {:induction false} InjectiveSize(m: map<TileId, nat>)
    requires Injective(m)
    ensures |m.Values| == |m|
  {
    if m != map[] {
      var id :| id in m;
      var rest := m - {id};
      InjectiveSize(rest);
      assert m.Values == rest.Values + {m[id]} by {
        forall v | v in m.Values
          ensures v in rest.Values + {m[id]}
        {
          var i :| i in m && m[i] == v;
          assert i != id ==> i in rest && rest[i] == v;
        }
      }
      assert m[id] !in rest.Values;
      assert m.Keys == rest.Keys + {id};
    }
  }

  function Add(a: Allocation, id: TileId): Allocation {
    if id in a.layerOf || a.free == [] then a
    else a.(free := a.free[..|a.free| - 1], layerOf := a.layerOf[id := a.free[|a.free| - 1]])
  }

  function Remove(a: Allocation, id: TileId): Allocation {
    if id !in a.layerOf then a
    else a.(free := a.free + [a.layerOf[id]], layerOf := a.layerOf - {id})
  }

  lemma AddKeepsPartition(a: Allocation, id: TileId)
    requires Partitioned(a)
    ensures Partitioned(Add(a, id))
  {
    if id !in a.layerOf && a.free != [] {
      var b, top := Add(a, id), a.free[|a.free| - 1];
      assert NoDup(b.free);
      forall l | l in b.free
        ensures l in a.free && l != top
      {
        var k :| 0 <= k < |b.free| && b.free[k] == l;
        assert a.free[k] == l;
      }
      assert FreeBelow(b);
      assert top in a.free;
      forall i | i in b.layerOf
        ensures b.layerOf[i] < b.size && b.layerOf[i] !in b.free
      {
        assert i != id ==> i in a.layerOf && a.layerOf[i] !in a.free;
      }
    }
  }

  lemma RemoveKeepsPartition(a: Allocation, id: TileId)
    requires Partitioned(a)
    ensures Partitioned(Remove(a, id))
  {
    if id in a.layerOf {
      var b := Remove(a, id);
      assert NoDup(b.free);
      assert a.layerOf.Keys == b.layerOf.Keys + {id};
      assert FreeBelow(b);
      assert AssignedBelow(b);
    }
  }

  /** The nearest resident ancestor, or nothing (as happens during startup). */
  datatype LayerInfo = Startup | Layer(id: TileId, index: nat)

  ghost predicate NearestResident(layerOf: map<TileId, nat>, id: TileId, info: LayerInfo) {
    match info
    case Startup => forall a :: a in layerOf ==> !Covers(a, id)
    case Layer(r, index) =>
      && r in layerOf && layerOf[r] == index && Covers(r, id)
      && forall a :: a in layerOf && Covers(a, id) ==> Covers(a, r)
  }

  function TileCoding(): Dictionary.Coding {
    Dictionary.Coding(Srs.Hash, Srs.Pack)
  }

  lemma TileCodable(id: TileId)
    requires Srs.Packable(id)
    ensures Dictionary.Codable(TileCoding(), id)
  {
    Srs.PackInjective(id, id);
  }

  /** Packing loses nothing, so no two tiles can be confused in the dictionary. */
  lemma TileCodingUnambiguous()
    ensures Dictionary.Unambiguous(TileCoding())
  {
    forall a, b | Srs.Packable(a) && Srs.Packable(b) && Srs.Pack(a) == Srs.Pack(b)
      ensures a == b
    {
      Srs.PackInjective(a, b);
    }
  }

  // ---- a full dictionary ------------------------------------------------------------------------

  function GridTiles(): set<TileId> {
    set x: nat, y: nat | x < 256 && y < 256 :: TileId(8, x, y)
  }

  /** All tiles of zoom level 8, each on its own layer. */
  function ZoomEight(): map<TileId, nat> {
    map id | id in GridTiles() :: 256 * id.x + id.y
  }

  lemma ZoomEightLayer(l: nat)
    requires l < Srs.U16
    ensures var id := TileId(8, l / 256, l % 256); id in ZoomEight() && ZoomEight()[id] == l
  {
    assert l / 256 < 256 && l % 256 < 256 && l == 256 * (l / 256) + l % 256;
    assert TileId(8, l / 256, l % 256) in GridTiles();
  }

  lemma ZoomEightMember(id: TileId)
    requires id in ZoomEight()
    ensures id.zoom == 8 && id.x < 256 && id.y < 256 && ZoomEight()[id] < Srs.U16
    ensures Srs.Packable(id)
  {
    var x: nat, y: nat :| x < 256 && y < 256 && id == TileId(8, x, y);
    Srs.Times3(1);
    Srs.ScaleCompose(1, 3, 3);
    Srs.Times3(8);
    assert Srs.Scale(1, 7) == 128;
    assert Srs.Pow2(8) == 256;
  }

  lemma ZoomEightInjective()
    ensures Injective(ZoomEight())
  {
    forall i, j | i in ZoomEight() && j in ZoomEight() && ZoomEight()[i] == ZoomEight()[j]
      ensures i == j
    {
      ZoomEightMember(i);
      ZoomEightMember(j);
    }
  }

  lemma ZoomEightValues()
    ensures ZoomEight().Values == Below(Srs.U16)
  {
    var values := ZoomEight().Values;
    forall l | l in values
      ensures l in Below(Srs.U16)
    {
      var id :| id in ZoomEight() && ZoomEight()[id] == l;
      ZoomEightMember(id);
    }
    forall l | l in Below(Srs.U16)
      ensures l in values
    {
      ZoomEightLayer(l);
    }
  }

  lemma ZoomEightSize()
    ensures |ZoomEight()| == Srs.U16
  {
    ZoomEightInjective();
    ZoomEightValues();
    InjectiveSize(ZoomEight());
  }

  /** There are 2^16 of them, and the root is not among them: the array that `set_tile_limit` admits can be full. */
  lemma ZoomEightFull()
    ensures |ZoomEight()| == Srs.U16 && ROOT !in ZoomEight()
    ensures forall id :: id in ZoomEight() ==> Srs.Packable(id)
  {
    ZoomEightSize();
    forall id | id in ZoomEight()
      ensures id != ROOT && Srs.Packable(id)
    {
      ZoomEightMember(id);
    }
  }

  /** Its dictionary has no slot that stops the probe for the root. */
  method FullDictionary() returns (keys: array<Srs.Packed>, layers: array<nat>)
    ensures fresh(keys) && fresh(layers)
    ensures Dictionary.Represents(TileCoding(), keys[..], layers[..], ZoomEight())
    ensures forall s: nat :: s < Srs.U16 ==> keys[..][s] != Srs.EMPTY && keys[..][s] != Srs.Pack(ROOT)
  {
    ZoomEightFull();
    forall id | id in ZoomEight()
      ensures Dictionary.Codable(TileCoding(), id)
    {
      TileCodable(id);
    }
    keys, layers := Dictionary.Generate(TileCoding(), ZoomEight());
    TileCodable(ROOT);
    TileCodingUnambiguous();
    forall s: nat | s < Srs.U16
      ensures keys[..][s] != Srs.EMPTY && keys[..][s] != Srs.Pack(ROOT)
    {
      Dictionary.FullTableHasNoStop(TileCoding(), keys[..], layers[..], ZoomEight(), ROOT, s);
    }
  }

  class GpuArrayHelper {
    var size: nat
    var freeLayers: seq<nat>
    var idToLayer: map<TileId, nat>

    function View(): Allocation
      reads this
    {
      Allocation(size, freeLayers, idToLayer)
    }

    constructor ()
      ensures View() == Allocation(0, [], map[])
    {
      size, freeLayers, idToLayer := 0, [], map[];
    }

    method SetTileLimit(newLimit: nat)
      requires View() == Allocation(0, [], map[]) && newLimit <= 0x1_0000
      modifies this
      ensures size == newLimit && idToLayer == map[] && Partitioned(View())
      ensures |freeLayers| == newLimit && forall j :: 0 <= j < newLimit ==> freeLayers[j] == newLimit - 1 - j
    {
      size := newLimit;
      freeLayers := seq(newLimit, _ => 0);
      for i := 0 to newLimit
        invariant size == newLimit && idToLayer == map[] && |freeLayers| == newLimit
        invariant forall j :: 0 <= j < i ==> freeLayers[j] == newLimit - 1 - j
      {
        freeLayers := freeLayers[i := newLimit - 1 - i];
      }
    }

    method AddTile(id: TileId) returns (layer: nat)
      modifies this
      ensures View() == Add(old(View()), id)
      ensures layer == if id in idToLayer then idToLayer[id] else INVALID_LAYER
    {
      if id in idToLayer {
        return idToLayer[id];
      }
      if freeLayers == [] {
        return INVALID_LAYER;
      }
      layer := freeLayers[|freeLayers| - 1];
      freeLayers := freeLayers[..|freeLayers| - 1];
      idToLayer := idToLayer[id := layer];
    }

    method RemoveTile(id: TileId)
      modifies this
      ensures View() == Remove(old(View()), id)
    {
      if id !in idToLayer {
        return;
      }
      freeLayers := freeLayers + [idToLayer[id]];
      idToLayer := idToLayer - {id};
    }

    predicate IsFull()
      reads this
    {
      freeLayers == []
    }

    /** Every resident id must be packable, as the assertions in `pack` demand. */
    method GenerateDictionary() returns (keys: array<Srs.Packed>, layers: array<nat>)
      requires |idToLayer| <= Srs.U16 && forall id :: id in idToLayer ==> Srs.Packable(id)
      ensures fresh(keys) && fresh(layers)
      ensures Dictionary.Represents(TileCoding(), keys[..], layers[..], idToLayer)
    {
      forall id | id in idToLayer
        ensures Dictionary.Codable(TileCoding(), id)
      {
        TileCodable(id);
      }
      keys, layers := Dictionary.Generate(TileCoding(), idToLayer);
    }

    /** Looking an id up in the generated rasters answers what the allocator knows. */
    method LookupInDictionary(keys: array<Srs.Packed>, layers: array<nat>, id: TileId) returns (found: Dictionary.Found)
      requires Dictionary.Represents(TileCoding(), keys[..], layers[..], idToLayer)
      requires Srs.Packable(id) && (|idToLayer| < Srs.U16 || id in idToLayer)
      ensures found == if id in idToLayer then Dictionary.Found(idToLayer[id]) else Dictionary.Missing
    {
      TileCodable(id);
      TileCodingUnambiguous();
      found := Dictionary.Lookup(TileCoding(), keys, layers, id, idToLayer);
    }

    method LayerFor(id: TileId) returns (info: LayerInfo)
      ensures NearestResident(idToLayer, id, info)
    {
      var tileId := id;
      while tileId !in idToLayer && tileId.zoom > 0
        invariant Covers(tileId, id)
        invariant forall a :: a in idToLayer && Covers(a, id) ==> Covers(a, tileId)
        decreases tileId.zoom
      {
        ghost var above := Parent(tileId);
        forall a | a in idToLayer && Covers(a, id)
          ensures Covers(a, above)
        {
          assert a != tileId;
        }
        CoversTransitive(above, tileId, id);
        tileId := Parent(tileId);
      }
      if tileId !in idToLayer {
        return Startup;
      }
      return Layer(tileId, idToLayer[tileId]);
    }
  }

  // ---- replaying a delta ----------------------------------------------------------------------

  function RemoveAll(a: Allocation, ids: seq<TileId>): Allocation
    decreases |ids|
  {
    if ids == [] then a else RemoveAll(Remove(a, ids[0]), ids[1..])
  }

  /** Adds until the array is full; the rest of the update is dropped. */
  function AddAll(a: Allocation, ids: seq<TileId>): Allocation
    decreases |ids|
  {
    if ids == [] || a.free == [] then a else AddAll(Add(a, ids[0]), ids[1..])
  }

  function Replay(a: Allocation, deleted: seq<TileId>, added: seq<TileId>): Allocation {
    AddAll(RemoveAll(a, deleted), added)
  }

  /** The layer freed last is the next one taken. */
  lemma LastFreedFirst(a: Allocation, gone: TileId, id: TileId)
    requires gone in a.layerOf && (id == gone || id !in a.layerOf)
    ensures var b := Add(Remove(a, gone), id);
      id in b.layerOf && b.layerOf[id] == a.layerOf[gone] && b.free == a.free
  {
  }

  lemma {:induction false} AddAllKeeps(a: Allocation, ids: seq<TileId>, id: TileId)
    requires id in a.layerOf
    ensures id in AddAll(a, ids).layerOf && AddAll(a, ids).layerOf[id] == a.layerOf[id]
    decreases |ids|
  {
    if ids != [] && a.free != [] {
      AddAllKeeps(Add(a, ids[0]), ids[1..], id);
    }
  }

  /** Absent tiles that fit take the free layers from the top, in their order: the k-th tile the k-th layer below it. */
  lemma {:induction false} LayersFromTop(a: Allocation, ids: seq<TileId>, k: nat)
    requires NoDup(ids) && Elems(ids) !! a.layerOf.Keys && |ids| <= |a.free| && k < |ids|
    ensures ids[k] in AddAll(a, ids).layerOf
    ensures AddAll(a, ids).layerOf[ids[k]] == a.free[|a.free| - 1 - k]
    decreases |ids|
  {
    var b, rest := Add(a, ids[0]), ids[1..];
    assert ids[0] in Elems(ids);
    if k == 0 {
      AddAllKeeps(b, rest, ids[0]);
    } else {
      NoDupSplit(ids, 1);
      assert ids[0] in Elems(ids[..1]);
      LayersFromTop(b, rest, k - 1);
    }
  }

  /** So the first tiles of a new array get the layers 0, 1, 2 and so on. */
  lemma FirstLayers(a: Allocation, ids: seq<TileId>, k: nat)
    requires a.layerOf == map[] && |a.free| == a.size
    requires forall j :: 0 <= j < a.size ==> a.free[j] == a.size - 1 - j
    requires NoDup(ids) && |ids| <= a.size && k < |ids|
    ensures ids[k] in AddAll(a, ids).layerOf && AddAll(a, ids).layerOf[ids[k]] == k
  {
    LayersFromTop(a, ids, k);
  }

  /** No removal of an absent tile: the assertion in `remove_tile` holds at every step. */
  ghost predicate RemovesPresent(a: Allocation, ids: seq<TileId>)
    decreases |ids|
  {
    ids != [] ==> ids[0] in a.layerOf && RemovesPresent(Remove(a, ids[0]), ids[1..])
  }

  /** No addition of a resident tile and no full array: the assertions in `add_tile` hold and nothing is dropped. */
  ghost predicate AddsFit(a: Allocation, ids: seq<TileId>)
    decreases |ids|
  {
    ids != [] ==> ids[0] !in a.layerOf && a.free != [] && AddsFit(Add(a, ids[0]), ids[1..])
  }

  ghost predicate CleanReplay(a: Allocation, deleted: seq<TileId>, added: seq<TileId>) {
    RemovesPresent(a, deleted) && AddsFit(RemoveAll(a, deleted), added)
  }

  lemma HeadTail(ids: seq<TileId>)
    requires NoDup(ids) && ids != []
    ensures NoDup(ids[1..]) && ids[0] in Elems(ids)
    ensures ids[0] !in Elems(ids[1..]) && Elems(ids) == {ids[0]} + Elems(ids[1..])
  {
    assert ids == [ids[0]] + ids[1..];
  }

  lemma {:induction false} RemoveAllKeys(a: Allocation, ids: seq<TileId>)
    requires NoDup(ids) && Elems(ids) <= a.layerOf.Keys
    ensures RemoveAll(a, ids).layerOf.Keys == a.layerOf.Keys - Elems(ids)
    ensures RemovesPresent(a, ids)
    decreases |ids|
  {
    if ids != [] {
      HeadTail(ids);
      RemoveAllKeys(Remove(a, ids[0]), ids[1..]);
    }
  }

  lemma {:induction false} RemoveAllPartition(a: Allocation, ids: seq<TileId>)
    requires Partitioned(a)
    ensures Partitioned(RemoveAll(a, ids)) && RemoveAll(a, ids).size == a.size
    decreases |ids|
  {
    if ids != [] {
      RemoveKeepsPartition(a, ids[0]);
      RemoveAllPartition(Remove(a, ids[0]), ids[1..]);
    }
  }

  lemma {:induction false} AddAllKeys(a: Allocation, ids: seq<TileId>)
    requires NoDup(ids) && Elems(ids) !! a.layerOf.Keys
    ensures AddsFit(a, ids) <==> |ids| <= |a.free|
    ensures |ids| <= |a.free| ==> AddAll(a, ids).layerOf.Keys == a.layerOf.Keys + Elems(ids)
    decreases |ids|
  {
    if ids != [] && a.free != [] {
      HeadTail(ids);
      AddAllKeys(Add(a, ids[0]), ids[1..]);
    }
  }

  lemma {:induction false} AddAllPartition(a: Allocation, ids: seq<TileId>)
    requires Partitioned(a)
    ensures Partitioned(AddAll(a, ids)) && AddAll(a, ids).size == a.size
    decreases |ids|
  {
    if ids != [] {
      AddKeepsPartition(a, ids[0]);
      AddAllPartition(Add(a, ids[0]), ids[1..]);
    }
  }

  /** A delta that deletes resident tiles and adds absent ones replays cleanly exactly when the result fits;
      then the resident set changes by exactly the delta. */
  lemma ReplayExact(a: Allocation, deleted: seq<TileId>, added: seq<TileId>)
    requires Partitioned(a)
    requires NoDup(deleted) && Elems(deleted) <= a.layerOf.Keys
    requires NoDup(added) && Elems(added) !! a.layerOf.Keys - Elems(deleted)
    ensures Partitioned(Replay(a, deleted, added)) && Replay(a, deleted, added).size == a.size
    ensures CleanReplay(a, deleted, added) <==> |a.layerOf.Keys - Elems(deleted) + Elems(added)| <= a.size
    ensures CleanReplay(a, deleted, added)
            ==> Replay(a, deleted, added).layerOf.Keys == a.layerOf.Keys - Elems(deleted) + Elems(added)
  {
    RemoveAllKeys(a, deleted);
    RemoveAllPartition(a, deleted);
    var b := RemoveAll(a, deleted);
    AddAllKeys(b, added);
    AddAllPartition(b, added);
    NoDupSize(added);
    assert |b.layerOf.Keys + Elems(added)| == |b.layerOf.Keys| + |added|;
  }

  // ---- the images on the layers ---------------------------------------------------------------

  /** Which tile's image each written layer holds after uploading `ids` in turn. */
  function Images(a: Allocation, image: map<nat, TileId>, ids: seq<TileId>): map<nat, TileId>
    decreases |ids|
  {
    if ids == [] || a.free == [] then image
    else Images(Add(a, ids[0]), Upload(a, image, ids[0]), ids[1..])
  }

  function Upload(a: Allocation, image: map<nat, TileId>, id: TileId): map<nat, TileId> {
    var layerOf := Add(a, id).layerOf;
    if id in layerOf then image[layerOf[id] := id] else image[INVALID_LAYER := id]
  }

  /** The layer of every resident tile holds that tile's image. */
  ghost predicate ImagesMatch(layerOf: map<TileId, nat>, image: map<nat, TileId>) {
    forall id :: id in layerOf ==> layerOf[id] in image && image[layerOf[id]] == id
  }

  lemma UploadKeepsImages(a: Allocation, image: map<nat, TileId>, id: TileId)
    requires Partitioned(a) && ImagesMatch(a.layerOf, image) && id !in a.layerOf && a.free != []
    ensures ImagesMatch(Add(a, id).layerOf, Upload(a, image, id))
  {
  }

  lemma {:induction false} AddAllKeepsImages(a: Allocation, image: map<nat, TileId>, ids: seq<TileId>)
    requires Partitioned(a) && ImagesMatch(a.layerOf, image) && AddsFit(a, ids)
    ensures ImagesMatch(AddAll(a, ids).layerOf, Images(a, image, ids))
    decreases |ids|
  {
    if ids != [] {
      AddKeepsPartition(a, ids[0]);
      UploadKeepsImages(a, image, ids[0]);
      AddAllKeepsImages(Add(a, ids[0]), Upload(a, image, ids[0]), ids[1..]);
    }
  }

  lemma {:induction false} RemoveAllSubset(a: Allocation, ids: seq<TileId>, id: TileId)
    requires id in RemoveAll(a, ids).layerOf
    ensures id in a.layerOf && RemoveAll(a, ids).layerOf[id] == a.layerOf[id]
    decreases |ids|
  {
    if ids != [] {
      RemoveAllSubset(Remove(a, ids[0]), ids[1..], id);
    }
  }

  /** After a clean replay no tile is drawn with another tile's image. */
  lemma ReplayKeepsImages(a: Allocation, image: map<nat, TileId>, deleted: seq<TileId>, added: seq<TileId>)
    requires Partitioned(a) && NoDup(deleted) && ImagesMatch(a.layerOf, image)
    requires Elems(deleted) <= a.layerOf.Keys && CleanReplay(a, deleted, added)
    ensures ImagesMatch(Replay(a, deleted, added).layerOf, Images(RemoveAll(a, deleted), image, added))
  {
    var b := RemoveAll(a, deleted);
    RemoveAllPartition(a, deleted);
    forall id | id in b.layerOf
      ensures b.layerOf[id] in image && image[b.layerOf[id]] == id
    {
      RemoveAllSubset(a, deleted, id);
    }
    AddAllKeepsImages(b, image, added);
  }

  /** With the root resident, every tile below it finds a layer. */
  lemma RootNeverStartsUp(layerOf: map<TileId, nat>, id: TileId, info: LayerInfo)
    requires ROOT in layerOf && Covers(ROOT, id) && NearestResident(layerOf, id, info)
    ensures info.Layer?
  {
  }

  /** TileGeometry and TextureLayer: both own an allocator and an array of layer images. */
  class DeltaConsumer {
    const helper: GpuArrayHelper
    var image: map<nat, TileId>

    constructor (tileLimit: nat)
      requires tileLimit <= 0x1_0000
      ensures fresh(this) && fresh(helper)
      ensures Partitioned(helper.View()) && helper.idToLayer == map[] && helper.size == tileLimit
      ensures image == map[]
    {
      var h := new GpuArrayHelper();
      h.SetTileLimit(tileLimit);
      helper := h;
      image := map[];
    }

    method UpdateGpuTiles(deletedTiles: seq<TileId>, newTiles: seq<TileId>)
      modifies this, helper
      ensures helper.View() == Replay(old(helper.View()), deletedTiles, newTiles)
      ensures image == Images(RemoveAll(old(helper.View()), deletedTiles), old(image), newTiles)
    {
      var i := 0;
      while i < |deletedTiles|
        invariant i <= |deletedTiles| && image == old(image)
        invariant RemoveAll(helper.View(), deletedTiles[i..]) == RemoveAll(old(helper.View()), deletedTiles)
      {
        assert deletedTiles[i..][1..] == deletedTiles[i + 1..];
        helper.RemoveTile(deletedTiles[i]);
        i := i + 1;
      }
      ghost var between := RemoveAll(old(helper.View()), deletedTiles);
      var j := 0;
      while j < |newTiles|
        invariant j <= |newTiles|
        invariant AddAll(helper.View(), newTiles[j..]) == AddAll(between, newTiles)
        invariant Images(helper.View(), image, newTiles[j..]) == Images(between, old(image), newTiles)
      {
        if helper.IsFull() {
          break;
        }
        assert newTiles[j..][1..] == newTiles[j + 1..];
        var layerIndex := helper.AddTile(newTiles[j]);
        image := image[layerIndex := newTiles[j]];
        j := j + 1;
      }
    }
  }
}
