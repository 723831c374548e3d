/** Tile ids of the quadtree: (zoom, x, y), parents halve the coordinates, every tile has four children. */
module Tiles {
  import opened Seqs

  datatype TileId = TileId(zoom: nat, x: nat, y: nat)

  const ROOT := TileId(0, 0, 0)

  /** Zoom levels are unsigned 32-bit, so the level above zero wraps around. */
  const ZOOM_BELOW_ZERO: nat := 0xFFFF_FFFF

  function Parent(id: TileId): TileId {
    TileId(if id.zoom == 0 then ZOOM_BELOW_ZERO else id.zoom - 1, id.x / 2, id.y / 2)
  }

  function Child(id: TileId, k: nat): TileId
    requires k < 4
  {
    TileId(id.zoom + 1, 2 * id.x + k % 2, 2 * id.y + k / 2)
  }

  function Children(id: TileId): seq<TileId> {
    [Child(id, 0), Child(id, 1), Child(id, 2), Child(id, 3)]
  }

  /** The position of a tile among its siblings. */
  function Quadrant(id: TileId): (k: nat)
    ensures k < 4
  {
    id.x % 2 + 2 * (id.y % 2)
  }

  lemma ParentChild(id: TileId, k: nat)
    requires k < 4
    ensures Parent(Child(id, k)) == id && Quadrant(Child(id, k)) == k
  {
  }

  lemma ChildParent(id: TileId)
    requires id.zoom > 0
    ensures Child(Parent(id), Quadrant(id)) == id
  {
  }

  lemma ChildrenCharacterised(p: TileId, c: TileId)
    ensures c in Children(p) <==> c.zoom > 0 && Parent(c) == p
    ensures |Children(p)| == 4 && NoDup(Children(p))
    ensures Elems(Children(p)) == {Child(p, 0), Child(p, 1), Child(p, 2), Child(p, 3)}
  {
    if c.zoom > 0 && Parent(c) == p {
      ChildParent(c);
    }
    ParentChild(p, 0); ParentChild(p, 1); ParentChild(p, 2); ParentChild(p, 3);
  }

  /** `a` is `d` or one of its ancestors. */
  ghost predicate Covers(a: TileId, d: TileId)
    decreases d.zoom
  {
    a == d || (d.zoom > a.zoom && Covers(a, Parent(d)))
  }

  lemma {:induction false} CoversTransitive(a: TileId, b: TileId, d: TileId)
    requires Covers(a, b) && Covers(b, d)
    ensures Covers(a, d)
    decreases d.zoom
  {
    if b != d {
      CoversTransitive(a, b, Parent(d));
    }
  }

  lemma {:induction false} CoversZoom(a: TileId, d: TileId)
    requires Covers(a, d)
    ensures a.zoom <= d.zoom
    ensures a.zoom == d.zoom ==> a == d
  {
  }

  /** Two ancestors of one tile are ancestors of each other. */
  lemma {:induction false} CoversComparable(a: TileId, b: TileId, d: TileId)
    requires Covers(a, d) && Covers(b, d) && a.zoom <= b.zoom
    ensures Covers(a, b)
    decreases d.zoom
  {
    if b != d {
      CoversComparable(a, b, Parent(d));
    }
  }

  lemma {:induction false} CoversThroughChild(a: TileId, d: TileId) returns (k: nat)
    requires Covers(a, d) && a != d
    ensures k < 4 && Covers(Child(a, k), d)
    decreases d.zoom
  {
    if Parent(d) == a {
      ChildParent(d);
      k := Quadrant(d);
    } else {
      k := CoversThroughChild(a, Parent(d));
    }
  }

  lemma ChildCovers(a: TileId, k: nat, d: TileId)
    requires k < 4 && Covers(Child(a, k), d)
    ensures Covers(a, d) && a != d
  {
    ParentChild(a, k);
    CoversTransitive(a, Child(a, k), d);
    CoversZoom(Child(a, k), d);
  }

  lemma ChildrenDisjoint(a: TileId, j: nat, k: nat, d: TileId)
    requires j < 4 && k < 4 && Covers(Child(a, j), d) && Covers(Child(a, k), d)
    ensures j == k
  {
    CoversComparable(Child(a, j), Child(a, k), d);
    CoversZoom(Child(a, j), Child(a, k));
    ParentChild(a, j);
    ParentChild(a, k);
  }

  /** `id` lies below `node` and every tile on the path from `node` down to it is good. */
  ghost predicate Reach(good: iset<TileId>, node: TileId, id: TileId)
    decreases id.zoom
  {
    id in good && (id == node || (id.zoom > node.zoom && Reach(good, node, Parent(id))))
  }

  lemma {:induction false} ReachCovers(good: iset<TileId>, node: TileId, id: TileId)
    requires Reach(good, node, id)
    ensures Covers(node, id) && node in good
    decreases id.zoom
  {
    if id != node {
      ReachCovers(good, node, Parent(id));
    }
  }

  lemma {:induction false} ReachThroughChild(good: iset<TileId>, node: TileId, id: TileId) returns (k: nat)
    requires Reach(good, node, id) && id != node
    ensures k < 4 && Reach(good, Child(node, k), id)
    decreases id.zoom
  {
    if Parent(id) == node {
      ChildParent(id);
      k := Quadrant(id);
    } else {
      k := ReachThroughChild(good, node, Parent(id));
      ReachCovers(good, Child(node, k), Parent(id));
      CoversZoom(Child(node, k), Parent(id));
    }
  }

  lemma {:induction false} ReachFromChild(good: iset<TileId>, node: TileId, k: nat, id: TileId)
    requires k < 4 && node in good && Reach(good, Child(node, k), id)
    ensures Reach(good, node, id) && id != node
    decreases id.zoom
  {
    ParentChild(node, k);
    if id == Child(node, k) {
      assert Reach(good, node, node);
    } else {
      ReachFromChild(good, node, k, Parent(id));
    }
  }

  /** The tiles of the finite set `within` that a descent from `node` through good tiles reaches. */
  ghost function ReachSet(good: iset<TileId>, within: set<TileId>, node: TileId): set<TileId> {
    set id | id in within && Reach(good, node, id)
  }

  /** What is reached through the first k children of `node`, and `node` itself. */
  ghost function ReachThrough(good: iset<TileId>, within: set<TileId>, node: TileId, k: nat): set<TileId>
    requires k <= 4
  {
    if k == 0 then {node} else ReachThrough(good, within, node, k - 1) + ReachSet(good, within, Child(node, k - 1))
  }

  lemma {:induction false} ReachThroughMember(good: iset<TileId>, within: set<TileId>, node: TileId, k: nat, id: TileId)
    requires k <= 4
    ensures id in ReachThrough(good, within, node, k)
       <==> id == node || exists j: nat :: j < k && id in ReachSet(good, within, Child(node, j))
  {
    if k > 0 {
      ReachThroughMember(good, within, node, k - 1, id);
    }
  }

  lemma ReachSetStep(good: iset<TileId>, within: set<TileId>, node: TileId)
    requires node in good && node in within
    ensures ReachThrough(good, within, node, 4) == ReachSet(good, within, node)
  {
    forall id
      ensures id in ReachThrough(good, within, node, 4) <==> id in ReachSet(good, within, node)
    {
      ReachThroughMember(good, within, node, 4, id);
      if id in ReachSet(good, within, node) && id != node {
        var k := ReachThroughChild(good, node, id);
        assert id in ReachSet(good, within, Child(node, k));
      }
      if j: nat :| j < 4 && id in ReachSet(good, within, Child(node, j)) {
        ReachFromChild(good, node, j, id);
      }
    }
  }

  lemma ReachThroughDisjoint(good: iset<TileId>, within: set<TileId>, node: TileId, k: nat)
    requires k < 4
    ensures ReachThrough(good, within, node, k) !! ReachSet(good, within, Child(node, k))
  {
    forall id | id in ReachThrough(good, within, node, k) && id in ReachSet(good, within, Child(node, k))
      ensures false
    {
      ReachCovers(good, Child(node, k), id);
      ReachThroughMember(good, within, node, k, id);
      if id == node {
        ChildCovers(node, k, node);
      } else {
        var j: nat :| j < k && id in ReachSet(good, within, Child(node, j));
        ReachCovers(good, Child(node, j), id);
        ChildrenDisjoint(node, j, k, id);
      }
    }
  }

  lemma ReachSetEmpty(good: iset<TileId>, within: set<TileId>, node: TileId)
    requires node !in good
    ensures ReachSet(good, within, node) == {}
  {
    forall id | id in ReachSet(good, within, node)
      ensures false
    {
      ReachCovers(good, node, id);
    }
  }
}
