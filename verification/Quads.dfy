/** Loaded tiles and the quads assembled from them (nucleus/tile/types.h). */
module Quads {
  import opened Seqs
  import opened Tiles
  import opened Entries

  datatype Status = Good | NotFound | NetworkError

  datatype NetworkInfo = NetworkInfo(status: Status, timestamp: nat)

  datatype Tile = Tile(id: TileId, networkInfo: NetworkInfo, data: string)

  /** A default-constructed id lies outside every quadtree. */
  const NO_TILE := Tile(TileId(ZOOM_BELOW_ZERO, 0, 0), NetworkInfo(Good, 0), "")

  /** An array of four tiles. */
  type FourTiles = s: seq<Tile> | |s| == 4 witness [NO_TILE, NO_TILE, NO_TILE, NO_TILE]

  datatype Quad = Quad(nTiles: nat, tiles: FourTiles)

  type DataQuad = Named<Quad>

  /** The quad that the map of assembling quads creates for an unknown key. */
  const EMPTY_QUAD: DataQuad := Named(TileId(ZOOM_BELOW_ZERO, 0, 0), Quad(0, [NO_TILE, NO_TILE, NO_TILE, NO_TILE]))

  function Worse(a: Status, b: Status): Status {
    if a.NetworkError? || b.NetworkError? then NetworkError
    else if a.NotFound? || b.NotFound? then NotFound
    else Good
  }

  function JoinTwo(a: NetworkInfo, b: NetworkInfo): NetworkInfo {
    NetworkInfo(Worse(a.status, b.status), if a.timestamp <= b.timestamp then a.timestamp else b.timestamp)
  }

  /** The worst status and the oldest time stamp of the four tiles. */
  function Joined(q: DataQuad): NetworkInfo {
    var t := q.body.tiles;
    JoinTwo(JoinTwo(t[0].networkInfo, t[1].networkInfo), JoinTwo(t[2].networkInfo, t[3].networkInfo))
  }

  ghost predicate AnyFailed(q: DataQuad) {
    exists k :: 0 <= k < 4 && q.body.tiles[k].networkInfo.status.NetworkError?
  }

  ghost predicate AllGood(q: DataQuad) {
    forall k :: 0 <= k < 4 ==> q.body.tiles[k].networkInfo.status.Good?
  }

  ghost predicate AnyRetired(q: DataQuad, age: nat, now: nat) {
    exists k :: 0 <= k < 4 && q.body.tiles[k].networkInfo.timestamp + age <= now
  }

  /** The joined status says whether some tile failed and whether all are good. */
  lemma JoinedStatus(q: DataQuad)
    ensures Joined(q).status.NetworkError? <==> AnyFailed(q)
    ensures Joined(q).status.Good? <==> AllGood(q)
  {
    var t := q.body.tiles;
    assert AnyFailed(q) <==> t[0].networkInfo.status.NetworkError? || t[1].networkInfo.status.NetworkError?
                             || t[2].networkInfo.status.NetworkError? || t[3].networkInfo.status.NetworkError?;
    assert AllGood(q) <==> t[0].networkInfo.status.Good? && t[1].networkInfo.status.Good?
                           && t[2].networkInfo.status.Good? && t[3].networkInfo.status.Good?;
  }

  /** The joined time stamp is that of the oldest tile, so a quad retires with the first of its tiles. */
  lemma JoinedTimestamp(q: DataQuad)
    ensures forall k :: 0 <= k < 4 ==> Joined(q).timestamp <= q.body.tiles[k].networkInfo.timestamp
    ensures exists k :: 0 <= k < 4 && Joined(q).timestamp == q.body.tiles[k].networkInfo.timestamp
    ensures forall age: nat, now: nat :: AnyRetired(q, age, now) <==> Joined(q).timestamp + age <= now
  {
    var t, oldest := q.body.tiles, Joined(q).timestamp;
    assert oldest == t[0].networkInfo.timestamp || oldest == t[1].networkInfo.timestamp
           || oldest == t[2].networkInfo.timestamp || oldest == t[3].networkInfo.timestamp;
    var k :| 0 <= k < 4 && t[k].networkInfo.timestamp == oldest;
    forall age: nat, now: nat
      ensures AnyRetired(q, age, now) <==> oldest + age <= now
    {
      assert t[k].networkInfo.timestamp + age == oldest + age;
    }
  }

  /** The loop of `NetworkInfo::join`, from the best status and the latest 64-bit time stamp. */
  method Join(infos: seq<NetworkInfo>) returns (joined: NetworkInfo)
    requires forall info :: info in infos ==> info.timestamp < U64
    ensures joined.status.NetworkError? <==> exists info :: info in infos && info.status.NetworkError?
    ensures joined.status.Good? <==> forall info :: info in infos ==> info.status.Good?
    ensures forall info :: info in infos ==> joined.timestamp <= info.timestamp
    ensures infos != [] ==> exists info :: info in infos && joined.timestamp == info.timestamp
  {
    joined := NetworkInfo(Good, U64 - 1);
    for i := 0 to |infos|
      invariant joined.status.NetworkError? <==> exists info :: info in infos[..i] && info.status.NetworkError?
      invariant joined.status.Good? <==> forall info :: info in infos[..i] ==> info.status.Good?
      invariant forall info :: info in infos[..i] ==> joined.timestamp <= info.timestamp
      invariant if i == 0 then joined.timestamp == U64 - 1
                else exists info :: info in infos[..i] && joined.timestamp == info.timestamp
    {
      assert infos[..i + 1] == infos[..i] + [infos[i]];
      assert infos[i] in infos[..i + 1];
      joined := JoinTwo(joined, infos[i]);
    }
    assert infos[..|infos|] == infos;
  }

  ghost function TileIds(q: DataQuad): seq<TileId> {
    [q.body.tiles[0].id, q.body.tiles[1].id, q.body.tiles[2].id, q.body.tiles[3].id]
  }

  /** A complete quad holds exactly the four children of its id, once each, in any order. */
  ghost predicate Complete(q: DataQuad) {
    q.body.nTiles == 4 && NoDup(TileIds(q)) && Elems(TileIds(q)) == Elems(Children(q.id))
  }

  /** The tiles below a set of quads. */
  ghost function ChildrenOf(quads: set<TileId>): set<TileId> {
    set q, k | q in quads && 0 <= k < 4 :: Child(q, k)
  }

  lemma ChildrenOfMember(quads: set<TileId>, c: TileId)
    ensures c in ChildrenOf(quads) <==> c.zoom > 0 && Parent(c) in quads
  {
    if c.zoom > 0 && Parent(c) in quads {
      ChildParent(c);
      assert Child(Parent(c), Quadrant(c)) in ChildrenOf(quads);
    }
    if c in ChildrenOf(quads) {
      var q, k :| q in quads && 0 <= k < 4 && Child(q, k) == c;
      ParentChild(q, k);
    }
  }

  lemma ChildrenOfOne(q: TileId)
    ensures ChildrenOf({q}) == Elems(Children(q))
  {
    forall c
      ensures c in ChildrenOf({q}) <==> c in Children(q)
    {
      ChildrenOfMember({q}, c);
      ChildrenCharacterised(q, c);
    }
  }

  lemma ChildrenOfUnion(a: set<TileId>, b: set<TileId>)
    ensures ChildrenOf(a + b) == ChildrenOf(a) + ChildrenOf(b)
    ensures a !! b ==> ChildrenOf(a) !! ChildrenOf(b)
  {
    forall c
      ensures c in ChildrenOf(a + b) <==> c in ChildrenOf(a) || c in ChildrenOf(b)
      ensures c in ChildrenOf(a) && c in ChildrenOf(b) ==> c.zoom > 0 && Parent(c) in a && Parent(c) in b
    {
      ChildrenOfMember(a + b, c);
      ChildrenOfMember(a, c);
      ChildrenOfMember(b, c);
    }
  }

  /** Four tiles per quad. */
  lemma {:induction false} ChildrenOfSize(quads: set<TileId>)
    ensures |ChildrenOf(quads)| == 4 * |quads|
    decreases |quads|
  {
    if quads == {} {
      assert ChildrenOf(quads) == {};
    } else {
      var q :| q in quads;
      var rest := quads - {q};
      assert quads == {q} + rest;
      ChildrenOfSize(rest);
      ChildrenOfUnion({q}, rest);
      ChildrenOfOne(q);
      ChildrenCharacterised(q, q);
      NoDupSize(Children(q));
    }
  }

  /** All four children of a tile belong to the children of a set of quads exactly when the tile is one of them. */
  lemma AllChildrenAvailable(quads: set<TileId>, t: TileId)
    ensures (forall k :: 0 <= k < 4 ==> Child(t, k) in ChildrenOf(quads)) <==> t in quads
  {
    forall k | 0 <= k < 4
      ensures Child(t, k) in ChildrenOf(quads) <==> t in quads
    {
      ChildrenOfMember(quads, Child(t, k));
      ParentChild(t, k);
    }
    assert Child(t, 0) in ChildrenOf(quads) <==> t in quads;
  }
}
