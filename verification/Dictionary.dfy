/** The hashed dictionary from tile ids to texture layers: linear probing over 2^16 slots
    (nucleus/tile/GpuArrayHelper.cpp, generate_dictionary). */
module Dictionary {
  import opened Seqs
  import opened Tiles
  import opened Srs

  /** The k-th slot probed from h; slot numbers are 16-bit and wrap around. */
  function Slot(h: nat, k: nat): (s: nat)
    requires h < U16 && k < U16
    ensures s < U16 && s == (h + k) % U16
  {
    if h + k < U16 then h + k else h + k - U16
  }

  /** How many steps from h lead to s. */
  function Distance(h: nat, s: nat): (k: nat)
    requires h < U16 && s < U16
    ensures k < U16 && Slot(h, k) == s
  {
    if h <= s then s - h else s + U16 - h
  }

  ghost function Occupied(keys: seq<Packed>): set<nat> {
    set s: nat | s < |keys| && keys[s] != EMPTY
  }

  lemma EmptySlotExists(keys: seq<Packed>) returns (s: nat)
    requires |Occupied(keys)| < |keys|
    ensures s < |keys| && keys[s] == EMPTY
  {
    var all := Below(|keys|);
    if all <= Occupied(keys) {
      SubsetSize(all, Occupied(keys));
    }
    s :| s in all && s !in Occupied(keys);
  }

  /** How ids are hashed and what is written into their slot. */
  datatype Coding = Coding(hash: TileId -> nat, key: TileId --> Packed)

  ghost predicate Codable(c: Coding, id: TileId) {
    c.hash(id) < U16 && c.key.requires(id) && c.key(id) != EMPTY
  }

  ghost predicate Unambiguous(c: Coding) {
    forall a, b :: c.key.requires(a) && c.key.requires(b) && c.key(a) == c.key(b) ==> a == b
  }

  ghost predicate AllCodable(c: Coding, m: map<TileId, nat>) {
    forall id :: id in m ==> Codable(c, id)
  }

  /** `id` is stored k steps from its hash and every slot before that is taken. */
  ghost predicate StoredAt(c: Coding, keys: seq<Packed>, id: TileId, k: nat)
    requires |keys| == U16 && Codable(c, id) && k < U16
  {
    && keys[Slot(c.hash(id), k)] == c.key(id)
    && forall j: nat :: j < k ==> keys[Slot(c.hash(id), j)] != EMPTY
  }

  ghost predicate Owns(c: Coding, m: map<TileId, nat>, id: TileId, key: Packed, layer: nat)
    requires AllCodable(c, m)
  {
    id in m && c.key(id) == key && m[id] == layer
  }

  /** Every taken slot belongs to an entry of the map and carries its layer. */
  ghost predicate SlotsFromMap(c: Coding, keys: seq<Packed>, layers: seq<nat>, m: map<TileId, nat>)
    requires |keys| == |layers| == U16 && AllCodable(c, m)
  {
    forall s: nat {:trigger layers[s]} :: s < U16 && keys[s] != EMPTY
      ==> exists id :: Owns(c, m, id, keys[s], layers[s])
  }

  ghost predicate MapInSlots(c: Coding, keys: seq<Packed>, m: map<TileId, nat>)
    requires |keys| == U16 && AllCodable(c, m)
  {
    forall id :: id in m ==> exists k: nat :: k < U16 && StoredAt(c, keys, id, k)
  }

  /** The two rasters represent the map. */
  ghost predicate Represents(c: Coding, keys: seq<Packed>, layers: seq<nat>, m: map<TileId, nat>) {
    && |keys| == |layers| == U16 && AllCodable(c, m)
    && SlotsFromMap(c, keys, layers, m) && MapInSlots(c, keys, m) && |Occupied(keys)| == |m|
  }

  lemma StoreKeepsEntries(c: Coding, keys: seq<Packed>, m: map<TileId, nat>, id: TileId, layer: nat, k: nat)
    requires |keys| == U16 && AllCodable(c, m) && Codable(c, id) && k < U16
    requires MapInSlots(c, keys, m)
    requires keys[Slot(c.hash(id), k)] == EMPTY
    requires forall j: nat :: j < k ==> keys[Slot(c.hash(id), j)] != EMPTY
    ensures MapInSlots(c, keys[Slot(c.hash(id), k) := c.key(id)], m[id := layer])
  {
    var keys' := keys[Slot(c.hash(id), k) := c.key(id)];
    assert StoredAt(c, keys', id, k);
    forall i | i in m && i != id
      ensures exists j: nat :: j < U16 && StoredAt(c, keys', i, j)
    {
      var j: nat :| j < U16 && StoredAt(c, keys, i, j);
      assert StoredAt(c, keys', i, j);
    }
  }

  lemma StoreKeepsSlots(c: Coding, keys: seq<Packed>, layers: seq<nat>, m: map<TileId, nat>,
                        id: TileId, layer: nat, s: nat)
    requires |keys| == |layers| == U16 && AllCodable(c, m) && Codable(c, id) && id !in m && s < U16
    requires SlotsFromMap(c, keys, layers, m)
    ensures SlotsFromMap(c, keys[s := c.key(id)], layers[s := layer], m[id := layer])
  {
    var keys', layers', m' := keys[s := c.key(id)], layers[s := layer], m[id := layer];
    forall t: nat | t < U16 && keys'[t] != EMPTY
      ensures exists i :: Owns(c, m', i, keys'[t], layers'[t])
    {
      if t == s {
        assert Owns(c, m', id, keys'[t], layers'[t]);
      } else {
        var i := SlotOwner(c, keys, layers, m, t);
        assert Owns(c, m', i, keys'[t], layers'[t]);
      }
    }
  }

  lemma OccupiedStore(keys: seq<Packed>, s: nat, key: Packed)
    requires s < |keys| && keys[s] == EMPTY && key != EMPTY
    ensures |Occupied(keys[s := key])| == |Occupied(keys)| + 1
  {
    assert Occupied(keys[s := key]) == Occupied(keys) + {s};
  }

  lemma StoreEntry(c: Coding, keys: seq<Packed>, layers: seq<nat>, m: map<TileId, nat>,
                   id: TileId, layer: nat, k: nat, s: nat)
    requires Represents(c, keys, layers, m) && Codable(c, id) && id !in m && k < U16
    requires s == Slot(c.hash(id), k) && keys[s] == EMPTY
    requires forall j: nat :: j < k ==> keys[Slot(c.hash(id), j)] != EMPTY
    ensures Represents(c, keys[s := c.key(id)], layers[s := layer], m[id := layer])
  {
    StoreKeepsEntries(c, keys, m, id, layer, k);
    StoreKeepsSlots(c, keys, layers, m, id, layer, s);
    OccupiedStore(keys, s, c.key(id));
    assert m[id := layer].Keys == m.Keys + {id};
  }

  /** Advances from the hash to the first empty slot. */
  method FindEmpty(c: Coding, keys: array<Packed>, id: TileId) returns (hash: nat, ghost k: nat)
    requires keys.Length == U16 && Codable(c, id) && |Occupied(keys[..])| < U16
    ensures k < U16 && hash == Slot(c.hash(id), k) && keys[hash] == EMPTY
    ensures forall j: nat :: j < k ==> keys[Slot(c.hash(id), j)] != EMPTY
  {
    ghost var gap := EmptySlotExists(keys[..]);
    ghost var last := Distance(c.hash(id), gap);
    k := 0;
    hash := c.hash(id);
    while keys[hash] != EMPTY
      invariant k <= last < U16 && hash == Slot(c.hash(id), k)
      invariant forall j: nat :: j < k ==> keys[Slot(c.hash(id), j)] != EMPTY
      decreases last - k
    {
      hash := if hash + 1 == U16 then 0 else hash + 1;
      k := k + 1;
    }
  }

  method InsertEntry(c: Coding, keys: array<Packed>, layers: array<nat>, id: TileId, layer: nat,
                     ghost m: map<TileId, nat>)
    requires Represents(c, keys[..], layers[..], m) && Codable(c, id) && id !in m && |m| < U16
    modifies keys, layers
    ensures Represents(c, keys[..], layers[..], m[id := layer])
  {
    var hash, k := FindEmpty(c, keys, id);
    StoreEntry(c, keys[..], layers[..], m, id, layer, k, hash);
    ghost var oldKeys, oldLayers := keys[..], layers[..];
    keys[hash] := c.key(id);
    layers[hash] := layer;
    assert keys[..] == oldKeys[hash := c.key(id)];
    assert layers[..] == oldLayers[hash := layer];
  }

  /** The entries of the map that are no longer waiting. */
  ghost function Done(m: map<TileId, nat>, remaining: set<TileId>): map<TileId, nat> {
    m - remaining
  }

  lemma NothingRepresented(c: Coding, keys: seq<Packed>, layers: seq<nat>)
    requires |keys| == |layers| == U16 && forall s :: 0 <= s < U16 ==> keys[s] == EMPTY
    ensures Represents(c, keys, layers, map[])
  {
    assert Occupied(keys) == {};
  }

  method StoreNext(c: Coding, keys: array<Packed>, layers: array<nat>, m: map<TileId, nat>,
                   remaining: set<TileId>, id: TileId)
    requires AllCodable(c, m) && |m| <= U16 && id in remaining && remaining <= m.Keys
    requires Represents(c, keys[..], layers[..], Done(m, remaining))
    modifies keys, layers
    ensures Represents(c, keys[..], layers[..], Done(m, remaining - {id}))
  {
    ghost var stored := Done(m, remaining);
    assert Codable(c, id);
    assert stored.Keys < m.Keys;
    SubsetSize(stored.Keys, m.Keys);
    InsertEntry(c, keys, layers, id, m[id], stored);
    assert stored[id := m[id]] == Done(m, remaining - {id});
  }

  /** Fills the rasters from the map, taking its entries in any order. */
  method Generate(c: Coding, m: map<TileId, nat>) returns (keys: array<Packed>, layers: array<nat>)
    requires AllCodable(c, m) && |m| <= U16
    ensures fresh(keys) && fresh(layers)
    ensures Represents(c, keys[..], layers[..], m)
  {
    keys := new Packed[U16](_ => EMPTY);
    layers := new nat[U16](_ => 0);
    NothingRepresented(c, keys[..], layers[..]);
    var remaining := m.Keys;
    assert Done(m, remaining) == map[];
    while remaining != {}
      invariant remaining <= m.Keys
      invariant Represents(c, keys[..], layers[..], Done(m, remaining))
      decreases remaining
    {
      var id :| id in remaining;
      StoreNext(c, keys, layers, m, remaining, id);
      remaining := remaining - {id};
    }
    assert Done(m, {}) == m;
  }

  datatype Found = Missing | Found(layer: nat)

  /** Where the probe for an id has to stop: at its own slot, or at an empty one. */
  lemma ProbeStops(c: Coding, keys: seq<Packed>, layers: seq<nat>, m: map<TileId, nat>, id: TileId) returns (k: nat)
    requires Represents(c, keys, layers, m) && Codable(c, id) && (|m| < U16 || id in m)
    ensures k < U16
    ensures if id in m then StoredAt(c, keys, id, k) else keys[Slot(c.hash(id), k)] == EMPTY
  {
    if id in m {
      k :| k < U16 && StoredAt(c, keys, id, k);
    } else {
      var gap := EmptySlotExists(keys);
      k := Distance(c.hash(id), gap);
    }
  }

  /** Reads the rasters with the same probe sequence that fills them. */
  method Lookup(c: Coding, keys: array<Packed>, layers: array<nat>, id: TileId, ghost m: map<TileId, nat>)
    returns (found: Found)
    requires Represents(c, keys[..], layers[..], m) && Unambiguous(c) && Codable(c, id)
    requires |m| < U16 || id in m
    ensures found == if id in m then Found(m[id]) else Missing
  {
    ghost var last := ProbeStops(c, keys[..], layers[..], m, id);
    ghost var k := 0;
    var hash := c.hash(id);
    while keys[hash] != EMPTY && keys[hash] != c.key(id)
      invariant k <= last < U16 && hash == Slot(c.hash(id), k)
      decreases last - k
    {
      hash := if hash + 1 == U16 then 0 else hash + 1;
      k := k + 1;
    }
    if keys[hash] == EMPTY {
      return Missing;
    }
    assert layers[..][hash] == layers[hash] && keys[..][hash] == keys[hash];
    ghost var i :| Owns(c, m, i, keys[hash], layers[hash]);
    return Found(layers[hash]);
  }

  lemma SlotOwner(c: Coding, keys: seq<Packed>, layers: seq<nat>, m: map<TileId, nat>, s: nat) returns (i: TileId)
    requires |keys| == |layers| == U16 && AllCodable(c, m) && SlotsFromMap(c, keys, layers, m)
    requires s < U16 && keys[s] != EMPTY
    ensures Owns(c, m, i, keys[s], layers[s])
  {
    var layer := layers[s];
    i :| Owns(c, m, i, keys[s], layer);
  }

  lemma AllOccupied(keys: seq<Packed>, s: nat)
    requires |Occupied(keys)| == |keys| && s < |keys|
    ensures keys[s] != EMPTY
  {
    SubsetSize(Occupied(keys), Below(|keys|));
    assert s in Below(|keys|);
  }

  lemma OtherKey(c: Coding, m: map<TileId, nat>, i: TileId, id: TileId)
    requires Unambiguous(c) && AllCodable(c, m) && Codable(c, id) && i in m && id !in m
    ensures c.key(i) != c.key(id)
  {
    assert Codable(c, i);
  }

  /** With all 2^16 slots taken a probe for an absent tile meets neither an empty slot nor its key: it never ends. */
  lemma FullTableHasNoStop(c: Coding, keys: seq<Packed>, layers: seq<nat>, m: map<TileId, nat>, id: TileId, s: nat)
    requires Represents(c, keys, layers, m) && Unambiguous(c) && Codable(c, id)
    requires |m| == U16 && id !in m && s < U16
    ensures keys[s] != EMPTY && keys[s] != c.key(id)
  {
    AllOccupied(keys, s);
    var i := SlotOwner(c, keys, layers, m, s);
    OtherKey(c, m, i, id);
  }
}
