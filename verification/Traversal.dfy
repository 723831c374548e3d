/** On-the-fly traversal of the quadtree: a tile is refined into its four children or becomes a leaf. */
module Traversal {
  import opened Seqs
  import opened Tiles

  type Refine = TileId -> bool

  /** The refine functors reject every tile from the maximal zoom level on. */
  ghost predicate StopsAt(refine: Refine, maxZoom: nat) {
    forall id :: refine(id) ==> id.zoom < maxZoom
  }

  function Height(node: TileId, maxZoom: nat): nat {
    if node.zoom < maxZoom then maxZoom - node.zoom else 0
  }

  /** The leaves below `node`. */
  function Leaves(refine: Refine, maxZoom: nat, node: TileId): seq<TileId>
    requires StopsAt(refine, maxZoom)
    decreases Height(node, maxZoom)
  {
    if refine(node) then
      Leaves(refine, maxZoom, Child(node, 0)) + Leaves(refine, maxZoom, Child(node, 1))
      + Leaves(refine, maxZoom, Child(node, 2)) + Leaves(refine, maxZoom, Child(node, 3))
    else [node]
  }

  /** The refined tiles below `node`, in the order in which they are refined. */
  function Inner(refine: Refine, maxZoom: nat, node: TileId): seq<TileId>
    requires StopsAt(refine, maxZoom)
    decreases Height(node, maxZoom)
  {
    if refine(node) then
      [node] + (Inner(refine, maxZoom, Child(node, 0)) + Inner(refine, maxZoom, Child(node, 1))
                + Inner(refine, maxZoom, Child(node, 2)) + Inner(refine, maxZoom, Child(node, 3)))
    else []
  }

  // ---- partitions -----------------------------------------------------------------------------

  /** Some tile of `s` is an ancestor, a descendant, or `d` itself. */
  ghost predicate Met(s: set<TileId>, d: TileId) {
    exists a :: a in s && (Covers(a, d) || Covers(d, a))
  }

  ghost predicate Antichain(s: set<TileId>) {
    forall a, b :: a in s && b in s && Covers(a, b) ==> a == b
  }

  /** The tiles of `s` lie below `node`, none lies inside another, and no place below `node` is left out. */
  ghost predicate Partition(node: TileId, s: set<TileId>) {
    && (forall t :: t in s ==> Covers(node, t))
    && Antichain(s)
    && forall d :: Covers(node, d) ==> Met(s, d)
  }

  lemma SingletonPartition(node: TileId)
    ensures Partition(node, {node})
  {
    forall d | Covers(node, d)
      ensures Met({node}, d)
    {
      assert node in {node};
    }
  }

  lemma ChildPartsDisjoint(node: TileId, parts: seq<set<TileId>>, j: nat, k: nat, a: TileId, b: TileId)
    requires |parts| == 4 && j < 4 && k < 4
    requires forall i: nat :: i < 4 ==> Partition(Child(node, i), parts[i])
    requires a in parts[j] && b in parts[k] && Covers(a, b)
    ensures j == k && a == b
  {
    CoversTransitive(Child(node, j), a, b);
    ChildrenDisjoint(node, j, k, b);
  }

  /** Partitions of the four children together partition their parent. */
  lemma JoinPartitions(node: TileId, parts: seq<set<TileId>>)
    requires |parts| == 4 && forall i: nat :: i < 4 ==> Partition(Child(node, i), parts[i])
    ensures Partition(node, parts[0] + parts[1] + parts[2] + parts[3])
    ensures parts[0] !! parts[1] !! parts[2] !! parts[3]
  {
    var s := parts[0] + parts[1] + parts[2] + parts[3];
    forall j: nat, k: nat, t | j < 4 && k < 4 && t in parts[j] && t in parts[k]
      ensures j == k
    {
      ChildPartsDisjoint(node, parts, j, k, t, t);
    }
    forall t | t in s
      ensures Covers(node, t)
    {
      var k: nat :| k < 4 && t in parts[k];
      ChildCovers(node, k, t);
    }
    forall a, b | a in s && b in s && Covers(a, b)
      ensures a == b
    {
      var j: nat :| j < 4 && a in parts[j];
      var k: nat :| k < 4 && b in parts[k];
      ChildPartsDisjoint(node, parts, j, k, a, b);
    }
    forall d | Covers(node, d)
      ensures Met(s, d)
    {
      JoinedMeets(node, parts, d);
    }
  }

  lemma PartInUnion(parts: seq<set<TileId>>, k: nat, a: TileId)
    requires |parts| == 4 && k < 4 && a in parts[k]
    ensures a in parts[0] + parts[1] + parts[2] + parts[3]
  {
  }

  lemma JoinedMeets(node: TileId, parts: seq<set<TileId>>, d: TileId)
    requires |parts| == 4 && forall i: nat :: i < 4 ==> Partition(Child(node, i), parts[i])
    requires Covers(node, d)
    ensures Met(parts[0] + parts[1] + parts[2] + parts[3], d)
  {
    var k := 0;
    if d != node {
      k := CoversThroughChild(node, d);
    }
    var below := if d == node then Child(node, 0) else d;
    assert Met(parts[k], below);
    var a :| a in parts[k] && (Covers(a, below) || Covers(below, a));
    PartInUnion(parts, k, a);
    if d == node {
      ChildCovers(node, 0, a);
    }
  }

  /** Every tile at least as fine as all of `s` has exactly one ancestor-or-self in it. */
  lemma ExactlyOne(node: TileId, s: set<TileId>, d: TileId) returns (a: TileId)
    requires Partition(node, s) && Covers(node, d) && forall t :: t in s ==> t.zoom <= d.zoom
    ensures a in s && Covers(a, d)
    ensures forall b :: b in s && Covers(b, d) ==> b == a
  {
    assert Met(s, d);
    a :| a in s && (Covers(a, d) || Covers(d, a));
    if Covers(d, a) {
      CoversZoom(d, a);
    }
    forall b | b in s && Covers(b, d)
      ensures b == a
    {
      if a.zoom <= b.zoom {
        CoversComparable(a, b, d);
      } else {
        CoversComparable(b, a, d);
      }
    }
  }

  // ---- what a traversal yields ------------------------------------------------------------------

  ghost function LeafParts(refine: Refine, maxZoom: nat, node: TileId): (parts: seq<set<TileId>>)
    requires StopsAt(refine, maxZoom)
    ensures |parts| == 4
  {
    [Elems(Leaves(refine, maxZoom, Child(node, 0))), Elems(Leaves(refine, maxZoom, Child(node, 1))),
     Elems(Leaves(refine, maxZoom, Child(node, 2))), Elems(Leaves(refine, maxZoom, Child(node, 3)))]
  }

  lemma ConcatFour(a: seq<TileId>, b: seq<TileId>, c: seq<TileId>, d: seq<TileId>)
    ensures Elems(a + b + c + d) == Elems(a) + Elems(b) + Elems(c) + Elems(d)
    ensures NoDup(a) && NoDup(b) && NoDup(c) && NoDup(d) && Elems(a) !! Elems(b) !! Elems(c) !! Elems(d)
            ==> NoDup(a + b + c + d)
  {
    ElemsConcat(a, b);
    ElemsConcat(a + b, c);
    ElemsConcat(a + b + c, d);
    if NoDup(a) && NoDup(b) && NoDup(c) && NoDup(d) && Elems(a) !! Elems(b) !! Elems(c) !! Elems(d) {
      NoDupConcat(a, b);
      NoDupConcat(a + b, c);
      NoDupConcat(a + b + c, d);
    }
  }

  /** The leaves are an exact, duplicate-free partition, one more than three times the refined tiles. */
  lemma {:induction false} LeavesPartition(refine: Refine, maxZoom: nat, node: TileId)
    requires StopsAt(refine, maxZoom)
    ensures Partition(node, Elems(Leaves(refine, maxZoom, node))) && NoDup(Leaves(refine, maxZoom, node))
    ensures |Leaves(refine, maxZoom, node)| == 3 * |Inner(refine, maxZoom, node)| + 1
    decreases Height(node, maxZoom)
  {
    if refine(node) {
      LeavesPartition(refine, maxZoom, Child(node, 0));
      LeavesPartition(refine, maxZoom, Child(node, 1));
      LeavesPartition(refine, maxZoom, Child(node, 2));
      LeavesPartition(refine, maxZoom, Child(node, 3));
      JoinPartitions(node, LeafParts(refine, maxZoom, node));
      ConcatFour(Leaves(refine, maxZoom, Child(node, 0)), Leaves(refine, maxZoom, Child(node, 1)),
                 Leaves(refine, maxZoom, Child(node, 2)), Leaves(refine, maxZoom, Child(node, 3)));
    } else {
      ElemsOne(node);
      SingletonPartition(node);
    }
  }

  ghost function Refined(refine: Refine): iset<TileId> {
    iset id | refine(id)
  }

  lemma InnerMember(refine: Refine, maxZoom: nat, node: TileId, id: TileId)
    requires StopsAt(refine, maxZoom)
    ensures id in Inner(refine, maxZoom, node)
       <==> refine(node) && (id == node || exists k: nat :: k < 4 && id in Inner(refine, maxZoom, Child(node, k)))
  {
    if refine(node) {
      var i0, i1 := Inner(refine, maxZoom, Child(node, 0)), Inner(refine, maxZoom, Child(node, 1));
      var i2, i3 := Inner(refine, maxZoom, Child(node, 2)), Inner(refine, maxZoom, Child(node, 3));
      InFive(id, node, i0, i1, i2, i3);
      forall k: nat | k < 4 && id in Inner(refine, maxZoom, Child(node, k))
        ensures id in i0 || id in i1 || id in i2 || id in i3
      {
        assert k == 0 || k == 1 || k == 2 || k == 3;
      }
    }
  }

  lemma InFive(id: TileId, n: TileId, a: seq<TileId>, b: seq<TileId>, c: seq<TileId>, d: seq<TileId>)
    ensures id in [n] + (a + b + c + d) <==> id == n || id in a || id in b || id in c || id in d
  {
    ConcatFour(a, b, c, d);
    ElemsOne(n);
    ElemsConcat([n], a + b + c + d);
    assert id in Elems([n] + (a + b + c + d)) <==> id in Elems([n]) || id in Elems(a + b + c + d);
    assert id in Elems(a + b + c + d) <==> id in Elems(a) || id in Elems(b) || id in Elems(c) || id in Elems(d);
  }

  /** The inner tiles are those reached from `node` through refined tiles. */
  lemma {:induction false} InnerReached(refine: Refine, maxZoom: nat, node: TileId, id: TileId)
    requires StopsAt(refine, maxZoom)
    ensures id in Inner(refine, maxZoom, node) <==> Reach(Refined(refine), node, id)
    decreases Height(node, maxZoom)
  {
    var good := Refined(refine);
    InnerMember(refine, maxZoom, node, id);
    if refine(node) {
      forall k: nat | k < 4
        ensures id in Inner(refine, maxZoom, Child(node, k)) <==> Reach(good, Child(node, k), id)
        ensures Reach(good, Child(node, k), id) ==> Reach(good, node, id)
      {
        InnerReached(refine, maxZoom, Child(node, k), id);
        if Reach(good, Child(node, k), id) {
          ReachFromChild(good, node, k, id);
        }
      }
      if Reach(good, node, id) && id != node {
        var k := ReachThroughChild(good, node, id);
        assert id in Inner(refine, maxZoom, Child(node, k));
      }
    } else if Reach(good, node, id) {
      ReachCovers(good, node, id);
    }
  }

  lemma {:induction false} InnerNoDup(refine: Refine, maxZoom: nat, node: TileId)
    requires StopsAt(refine, maxZoom)
    ensures NoDup(Inner(refine, maxZoom, node))
    decreases Height(node, maxZoom)
  {
    if refine(node) {
      var i0, i1 := Inner(refine, maxZoom, Child(node, 0)), Inner(refine, maxZoom, Child(node, 1));
      var i2, i3 := Inner(refine, maxZoom, Child(node, 2)), Inner(refine, maxZoom, Child(node, 3));
      InnerNoDup(refine, maxZoom, Child(node, 0));
      InnerNoDup(refine, maxZoom, Child(node, 1));
      InnerNoDup(refine, maxZoom, Child(node, 2));
      InnerNoDup(refine, maxZoom, Child(node, 3));
      InnerPartsApart(refine, maxZoom, node);
      NoDupFive(node, i0, i1, i2, i3);
    }
  }

  lemma NoDupFive(n: TileId, a: seq<TileId>, b: seq<TileId>, c: seq<TileId>, d: seq<TileId>)
    requires NoDup(a) && NoDup(b) && NoDup(c) && NoDup(d) && Elems(a) !! Elems(b) !! Elems(c) !! Elems(d)
    requires n !in a && n !in b && n !in c && n !in d
    ensures NoDup([n] + (a + b + c + d))
  {
    ElemsOne(n);
    ConcatFour(a, b, c, d);
    NoDupConcat([n], a + b + c + d);
  }

  lemma InnerPartsApart(refine: Refine, maxZoom: nat, node: TileId)
    requires StopsAt(refine, maxZoom)
    ensures Elems(Inner(refine, maxZoom, Child(node, 0))) !! Elems(Inner(refine, maxZoom, Child(node, 1)))
            !! Elems(Inner(refine, maxZoom, Child(node, 2))) !! Elems(Inner(refine, maxZoom, Child(node, 3)))
    ensures node !in Inner(refine, maxZoom, Child(node, 0)) && node !in Inner(refine, maxZoom, Child(node, 1))
    ensures node !in Inner(refine, maxZoom, Child(node, 2)) && node !in Inner(refine, maxZoom, Child(node, 3))
  {
    forall j: nat, k: nat, id | j < 4 && k < 4 && j != k
                                && id in Inner(refine, maxZoom, Child(node, j))
                                && id in Inner(refine, maxZoom, Child(node, k))
      ensures false
    {
      InnerApart(refine, maxZoom, node, id);
    }
    InnerApart(refine, maxZoom, node, node);
  }

  lemma InnerApart(refine: Refine, maxZoom: nat, node: TileId, id: TileId)
    requires StopsAt(refine, maxZoom)
    ensures forall k: nat :: k < 4 && id in Inner(refine, maxZoom, Child(node, k))
              ==> Covers(Child(node, k), id) && id != node
    ensures forall j: nat, k: nat :: j < 4 && k < 4 && Covers(Child(node, j), id) && Covers(Child(node, k), id)
              ==> j == k
  {
    forall k: nat | k < 4 && id in Inner(refine, maxZoom, Child(node, k))
      ensures Covers(Child(node, k), id) && id != node
    {
      InnerReached(refine, maxZoom, Child(node, k), id);
      ReachCovers(Refined(refine), Child(node, k), id);
      CoversZoom(Child(node, k), id);
    }
    forall j: nat, k: nat | j < 4 && k < 4 && Covers(Child(node, j), id) && Covers(Child(node, k), id)
      ensures j == k
    {
      ChildrenDisjoint(node, j, k, id);
    }
  }

  lemma LeafBelowChild(refine: Refine, maxZoom: nat, node: TileId, t: TileId) returns (k: nat)
    requires StopsAt(refine, maxZoom) && refine(node) && t in Leaves(refine, maxZoom, node)
    ensures k < 4 && t in Leaves(refine, maxZoom, Child(node, k))
  {
    ConcatFour(Leaves(refine, maxZoom, Child(node, 0)), Leaves(refine, maxZoom, Child(node, 1)),
               Leaves(refine, maxZoom, Child(node, 2)), Leaves(refine, maxZoom, Child(node, 3)));
    assert t in Elems(Leaves(refine, maxZoom, node));
    k := if t in Leaves(refine, maxZoom, Child(node, 0)) then 0
         else if t in Leaves(refine, maxZoom, Child(node, 1)) then 1
         else if t in Leaves(refine, maxZoom, Child(node, 2)) then 2
         else 3;
  }

  lemma LeafOfChild(refine: Refine, maxZoom: nat, node: TileId, k: nat, t: TileId)
    requires StopsAt(refine, maxZoom) && refine(node) && k < 4 && t in Leaves(refine, maxZoom, Child(node, k))
    ensures t in Leaves(refine, maxZoom, node)
  {
    assert k == 0 || k == 1 || k == 2 || k == 3;
    ConcatFour(Leaves(refine, maxZoom, Child(node, 0)), Leaves(refine, maxZoom, Child(node, 1)),
               Leaves(refine, maxZoom, Child(node, 2)), Leaves(refine, maxZoom, Child(node, 3)));
    assert t in Elems(Leaves(refine, maxZoom, Child(node, k)));
    assert t in Elems(Leaves(refine, maxZoom, node));
  }

  /** A leaf is a tile that is not refined although everything above it, from `node` down, is. */
  ghost predicate IsLeaf(refine: Refine, node: TileId, t: TileId) {
    !refine(t) && (t == node || (t.zoom > 0 && Reach(Refined(refine), node, Parent(t))))
  }

  lemma {:induction false} LeafExact(refine: Refine, maxZoom: nat, node: TileId, t: TileId)
    requires StopsAt(refine, maxZoom)
    ensures t in Leaves(refine, maxZoom, node) <==> IsLeaf(refine, node, t)
    decreases Height(node, maxZoom)
  {
    var good := Refined(refine);
    if t in Leaves(refine, maxZoom, node) {
      if refine(node) {
        var k := LeafBelowChild(refine, maxZoom, node, t);
        LeafExact(refine, maxZoom, Child(node, k), t);
        ParentChild(node, k);
        if t != Child(node, k) {
          ReachFromChild(good, node, k, Parent(t));
        }
      }
    } else if IsLeaf(refine, node, t) && t != node {
      ReachCovers(good, node, Parent(t));
      ChildParent(t);
      var k := Quadrant(t);
      if Parent(t) != node {
        k := ReachThroughChild(good, node, Parent(t));
      }
      LeafExact(refine, maxZoom, Child(node, k), t);
      LeafOfChild(refine, maxZoom, node, k, t);
    }
  }

  /** Refining fewer tiles coarsens the leaves: every leaf of the finer traversal has an ancestor-or-self
      among the leaves of the coarser one. */
  lemma {:induction false} CoarserLeaves(coarse: Refine, fine: Refine, maxZoom: nat, node: TileId, t: TileId)
    returns (a: TileId)
    requires StopsAt(coarse, maxZoom) && StopsAt(fine, maxZoom)
    requires forall id :: coarse(id) ==> fine(id)
    requires t in Leaves(fine, maxZoom, node)
    ensures a in Leaves(coarse, maxZoom, node) && Covers(a, t)
    decreases Height(node, maxZoom)
  {
    if coarse(node) {
      var k := LeafBelowChild(fine, maxZoom, node, t);
      a := CoarserLeaves(coarse, fine, maxZoom, Child(node, k), t);
    } else {
      LeavesPartition(fine, maxZoom, node);
      assert t in Elems(Leaves(fine, maxZoom, node));
      a := node;
    }
  }

  /** A leaf other than the start tile is a child of a refined tile. */
  lemma {:induction false} LeafParentRefined(refine: Refine, maxZoom: nat, node: TileId, t: TileId)
    requires StopsAt(refine, maxZoom) && t in Leaves(refine, maxZoom, node) && t != node
    ensures t.zoom > 0 && refine(Parent(t))
    decreases Height(node, maxZoom)
  {
    var k := LeafBelowChild(refine, maxZoom, node, t);
    if t == Child(node, k) {
      ParentChild(node, k);
    } else {
      LeafParentRefined(refine, maxZoom, Child(node, k), t);
    }
  }
}
