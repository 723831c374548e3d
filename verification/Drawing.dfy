/** Draw lists: generating the leaves for a camera, limiting their number, and refining only where tiles are
    available (nucleus/tile/drawing.cpp, nucleus/tile/DrawListGenerator.cpp). */
module Drawing {
  import opened Seqs
  import opened Tiles
  import opened Traversal
  import opened Quads

  function GenerateList(refine: Refine, maxZoom: nat): seq<TileId>
    requires StopsAt(refine, maxZoom)
  {
    Leaves(refine, maxZoom, ROOT)
  }

  // ---- limiting a draw list -------------------------------------------------------------------

  predicate AllInSet(ids: set<TileId>, parent: TileId) {
    Child(parent, 0) in ids && Child(parent, 1) in ids && Child(parent, 2) in ids && Child(parent, 3) in ids
  }

  /** The set after the four children of `parent` were replaced by `parent`. */
  ghost function Merged(s: set<TileId>, parent: TileId): set<TileId> {
    s - Elems(Children(parent)) + {parent}
  }

  lemma MergedPartition(s: set<TileId>, parent: TileId)
    requires Partition(ROOT, s) && AllInSet(s, parent)
    ensures Partition(ROOT, Merged(s, parent))
    ensures |Merged(s, parent)| == |s| - 3
  {
    var m := Merged(s, parent);
    forall t | t in m
      ensures Covers(ROOT, t)
    {
      MergedBelowRoot(s, parent, t);
    }
    MergedAntichain(s, parent);
    forall d | Covers(ROOT, d)
      ensures Met(m, d)
    {
      MergedMeets(s, parent, d);
    }
    MergedSize(s, parent);
  }

  /** In a partition, a tile above or below the parent of a full sibling group is one of the siblings. */
  lemma MembersNearParent(s: set<TileId>, parent: TileId, t: TileId)
    requires Antichain(s) && AllInSet(s, parent) && t in s && (Covers(t, parent) || Covers(parent, t))
    ensures t in Children(parent) && t != parent
  {
    ParentChild(parent, 0);
    if Covers(t, parent) {
      CoversTransitive(t, parent, Child(parent, 0));
      CoversZoom(t, parent);
    } else {
      var k := CoversThroughChild(parent, t);
      assert k == 0 || k == 1 || k == 2 || k == 3;
      assert Child(parent, k) in s;
    }
  }

  lemma MergedBelowRoot(s: set<TileId>, parent: TileId, t: TileId)
    requires Partition(ROOT, s) && AllInSet(s, parent) && t in Merged(s, parent)
    ensures Covers(ROOT, t)
  {
    if t == parent {
      ParentChild(parent, 0);
      assert Child(parent, 0) in s;
      assert Covers(ROOT, Child(parent, 0)) && Child(parent, 0) != ROOT;
    }
  }

  lemma MergedAntichain(s: set<TileId>, parent: TileId)
    requires Antichain(s) && AllInSet(s, parent)
    ensures Antichain(Merged(s, parent))
  {
    var m := Merged(s, parent);
    forall a, b | a in m && b in m && Covers(a, b)
      ensures a == b
    {
      if a == parent && b != parent {
        MembersNearParent(s, parent, b);
      } else if b == parent && a != parent {
        MembersNearParent(s, parent, a);
      }
    }
  }

  lemma MergedMeets(s: set<TileId>, parent: TileId, d: TileId)
    requires Partition(ROOT, s) && AllInSet(s, parent) && Covers(ROOT, d)
    ensures Met(Merged(s, parent), d)
  {
    var m := Merged(s, parent);
    assert Met(s, d);
    var a :| a in s && (Covers(a, d) || Covers(d, a));
    if a in Children(parent) {
      ChildrenCharacterised(parent, a);
      assert Covers(parent, a);
      assert parent in m;
      if Covers(a, d) {
        CoversTransitive(parent, a, d);
      } else if d.zoom <= parent.zoom {
        CoversComparable(d, parent, a);
      } else {
        CoversComparable(parent, d, a);
      }
    } else {
      assert a in m;
    }
  }

  lemma MergedSize(s: set<TileId>, parent: TileId)
    requires Antichain(s) && AllInSet(s, parent)
    ensures |Merged(s, parent)| == |s| - 3
  {
    ChildrenCharacterised(parent, parent);
    NoDupSize(Children(parent));
    if parent in s {
      MembersNearParent(s, parent, parent);
    }
    assert Elems(Children(parent)) <= s;
  }

  /** While more than one leaf remains, the finest leaf's siblings are all leaves: something can be merged. */
  lemma FinestGroupFull(s: set<TileId>, finest: TileId)
    requires Partition(ROOT, s) && finest in s && |s| > 1
    requires forall t :: t in s ==> t.zoom <= finest.zoom
    ensures finest.zoom > 0 && AllInSet(s, Parent(finest))
  {
    if finest.zoom == 0 {
      CoversZoom(ROOT, finest);
      forall t | t in s
        ensures t in {ROOT}
      {
        CoversZoom(ROOT, t);
      }
      SubsetSize(s, {ROOT});
    }
    forall k | 0 <= k < 4
      ensures Child(Parent(finest), k) in s
    {
      SiblingPresent(s, finest, k);
    }
  }

  lemma SiblingPresent(s: set<TileId>, finest: TileId, k: nat)
    requires Partition(ROOT, s) && finest in s && finest.zoom > 0 && k < 4
    requires forall t :: t in s ==> t.zoom <= finest.zoom
    ensures Child(Parent(finest), k) in s
  {
    var parent := Parent(finest);
    var sibling := Child(parent, k);
    ParentChild(parent, k);
    assert Covers(parent, finest) && Covers(parent, sibling);
    CoversComparable(ROOT, parent, finest);
    CoversTransitive(ROOT, parent, sibling);
    assert Met(s, sibling);
    var a :| a in s && (Covers(a, sibling) || Covers(sibling, a));
    if Covers(sibling, a) {
      CoversZoom(sibling, a);
    } else if a != sibling {
      assert Covers(a, parent);
      CoversTransitive(a, parent, finest);
      CoversZoom(a, parent);
    }
  }

  lemma {:induction false} Finest(s: set<TileId>) returns (finest: TileId)
    requires s != {}
    ensures finest in s && forall t :: t in s ==> t.zoom <= finest.zoom
  {
    finest :| finest in s;
    if s != {finest} {
      var other := Finest(s - {finest});
      if other.zoom > finest.zoom {
        finest := other;
      }
    }
  }

  /** The list is a duplicate-free enumeration of the set. */
  ghost predicate Enumerates(tiles: seq<TileId>, s: set<TileId>) {
    NoDup(tiles) && Elems(tiles) == s
  }

  /** The tiles outside a set, in order. */
  function Outside(tiles: seq<TileId>, gone: set<TileId>): seq<TileId> {
    if tiles == [] then [] else (if tiles[0] in gone then [] else [tiles[0]]) + Outside(tiles[1..], gone)
  }

  lemma {:induction false} OutsideConcat(a: seq<TileId>, b: seq<TileId>, gone: set<TileId>)
    ensures Outside(a + b, gone) == Outside(a, gone) + Outside(b, gone)
  {
    if a == [] {
      assert a + b == b;
    } else {
      assert (a + b)[1..] == a[1..] + b;
      OutsideConcat(a[1..], b, gone);
    }
  }

  lemma {:induction false} OutsideNone(tiles: seq<TileId>, gone: set<TileId>)
    requires Elems(tiles) !! gone
    ensures Outside(tiles, gone) == tiles
  {
    if tiles != [] {
      assert tiles == [tiles[0]] + tiles[1..];
      assert tiles[0] in Elems(tiles) && Elems(tiles[1..]) <= Elems(tiles);
      OutsideNone(tiles[1..], gone);
    }
  }

  lemma {:induction false} OutsideTwice(tiles: seq<TileId>, a: set<TileId>, b: set<TileId>)
    ensures Outside(Outside(tiles, a), b) == Outside(tiles, a + b)
  {
    if tiles != [] {
      OutsideTwice(tiles[1..], a, b);
      OutsideConcat(if tiles[0] in a then [] else [tiles[0]], Outside(tiles[1..], a), b);
    }
  }

  lemma {:induction false} OutsideOne(tiles: seq<TileId>, pos: nat)
    requires NoDup(tiles) && pos < |tiles|
    ensures Outside(tiles, {tiles[pos]}) == tiles[..pos] + tiles[pos + 1..]
  {
    var id, rest := tiles[pos], tiles[1..];
    NoDupTail(tiles);
    if pos == 0 {
      OutsideNone(rest, {id});
      assert tiles[..0] + tiles[1..] == rest;
    } else {
      OutsideOne(rest, pos - 1);
      assert tiles[..pos] + tiles[pos + 1..] == [tiles[0]] + (rest[..pos - 1] + rest[pos..]);
    }
  }

  ghost predicate Rising(at: seq<nat>) {
    forall j, k :: 0 <= j < k < |at| ==> at[j] < at[k]
  }

  ghost predicate ListsAt(tiles: seq<TileId>, kept: seq<TileId>, at: seq<nat>) {
    |at| == |kept| && forall k :: 0 <= k < |at| ==> at[k] < |tiles| && tiles[at[k]] == kept[k]
  }

  ghost predicate PositionsOutside(tiles: seq<TileId>, gone: set<TileId>, at: seq<nat>) {
    forall i: nat :: i < |tiles| ==> (tiles[i] !in gone <==> i in at)
  }

  ghost predicate KeptAt(tiles: seq<TileId>, gone: set<TileId>, kept: seq<TileId>, at: seq<nat>) {
    Rising(at) && ListsAt(tiles, kept, at) && PositionsOutside(tiles, gone, at)
  }

  /** `kept` lists, in their order, exactly the tiles at the positions outside `gone`. */
  ghost predicate KeepsOrder(tiles: seq<TileId>, gone: set<TileId>, kept: seq<TileId>) {
    exists at :: KeptAt(tiles, gone, kept, at)
  }

  /** The positions in a list with one more tile in front. */
  function Shifted(at: seq<nat>): (r: seq<nat>)
    ensures |r| == |at| && forall k :: 0 <= k < |at| ==> r[k] == at[k] + 1
  {
    seq(|at|, k requires 0 <= k < |at| => at[k] + 1)
  }

  lemma ShiftedMember(at: seq<nat>, i: nat)
    ensures i in Shifted(at) <==> i > 0 && i - 1 in at
  {
    if i > 0 && i - 1 in at {
      var k :| 0 <= k < |at| && at[k] == i - 1;
      assert Shifted(at)[k] == i;
    }
  }

  lemma RisingShifted(at: seq<nat>)
    requires Rising(at)
    ensures Rising(Shifted(at)) && Rising([0] + Shifted(at))
  {
  }

  lemma ListsShifted(t: TileId, tiles: seq<TileId>, kept: seq<TileId>, at: seq<nat>)
    requires ListsAt(tiles, kept, at)
    ensures ListsAt([t] + tiles, kept, Shifted(at)) && ListsAt([t] + tiles, [t] + kept, [0] + Shifted(at))
  {
  }

  lemma OutsideShifted(t: TileId, tiles: seq<TileId>, gone: set<TileId>, at: seq<nat>)
    requires PositionsOutside(tiles, gone, at)
    ensures PositionsOutside([t] + tiles, gone, if t in gone then Shifted(at) else [0] + Shifted(at))
  {
    forall i: nat | i < |[t] + tiles|
      ensures ([t] + tiles)[i] !in gone <==> i in if t in gone then Shifted(at) else [0] + Shifted(at)
    {
      ShiftedMember(at, i);
      assert i > 0 ==> ([t] + tiles)[i] == tiles[i - 1];
    }
  }

  lemma KeptInFront(t: TileId, tiles: seq<TileId>, gone: set<TileId>, kept: seq<TileId>, at: seq<nat>)
    requires KeptAt(tiles, gone, kept, at)
    ensures t in gone ==> KeptAt([t] + tiles, gone, kept, Shifted(at))
    ensures t !in gone ==> KeptAt([t] + tiles, gone, [t] + kept, [0] + Shifted(at))
  {
    RisingShifted(at);
    ListsShifted(t, tiles, kept, at);
    OutsideShifted(t, tiles, gone, at);
  }

  lemma OutsideInFront(t: TileId, tiles: seq<TileId>, gone: set<TileId>)
    ensures Outside([t] + tiles, gone) == if t in gone then Outside(tiles, gone) else [t] + Outside(tiles, gone)
  {
    assert ([t] + tiles)[1..] == tiles;
  }

  lemma {:induction false} OutsideAt(tiles: seq<TileId>, gone: set<TileId>) returns (at: seq<nat>)
    ensures KeptAt(tiles, gone, Outside(tiles, gone), at)
    decreases |tiles|
  {
    if tiles == [] {
      return [];
    }
    var t, tail := tiles[0], tiles[1..];
    var rest := OutsideAt(tail, gone);
    KeptInFront(t, tail, gone, Outside(tail, gone), rest);
    OutsideInFront(t, tail, gone);
    assert [t] + tail == tiles;
    at := if t in gone then Shifted(rest) else [0] + Shifted(rest);
  }

  lemma OutsideKeepsOrder(tiles: seq<TileId>, gone: set<TileId>)
    ensures KeepsOrder(tiles, gone, Outside(tiles, gone))
  {
    var at := OutsideAt(tiles, gone);
  }

  lemma NoDupTail(tiles: seq<TileId>)
    requires NoDup(tiles) && tiles != []
    ensures NoDup(tiles[1..]) && tiles[0] !in Elems(tiles[1..])
  {
    NoDupSplit(tiles, 1);
    assert tiles[..1] == [tiles[0]];
    ElemsOne(tiles[0]);
    assert tiles[0] in Elems(tiles[..1]);
  }

  lemma ErasedEnumerates(tiles: seq<TileId>, pos: nat)
    requires NoDup(tiles) && pos < |tiles|
    ensures Enumerates(tiles[..pos] + tiles[pos + 1..], Elems(tiles) - {tiles[pos]})
  {
    NoDupSplit(tiles, pos);
    NoDupSplit(tiles[pos..], 1);
    assert tiles[pos..][1..] == tiles[pos + 1..] && tiles[pos..][..1] == [tiles[pos]];
    ElemsOne(tiles[pos]);
    NoDupConcat(tiles[..pos], tiles[pos + 1..]);
  }

  /** Erases the last occurrence of `id`. */
  method Erase(tiles: seq<TileId>, id: TileId) returns (rest: seq<TileId>)
    requires NoDup(tiles) && id in tiles
    ensures rest == Outside(tiles, {id}) && Enumerates(rest, Elems(tiles) - {id})
    ensures exists pos: nat :: pos < |tiles| && tiles[pos] == id && rest == tiles[..pos] + tiles[pos + 1..]
  {
    var pos := |tiles| - 1;
    while tiles[pos] != id
      invariant 0 <= pos < |tiles|
      invariant id in tiles[..pos + 1]
      decreases pos
    {
      assert tiles[..pos + 1] == tiles[..pos] + [tiles[pos]];
      pos := pos - 1;
    }
    OutsideOne(tiles, pos);
    ErasedEnumerates(tiles, pos);
    rest := tiles[..pos] + tiles[pos + 1..];
  }

  /** The list with the children of `parent` replaced by `parent`, at its end. */
  function Replaced(tiles: seq<TileId>, parent: TileId): seq<TileId> {
    Outside(tiles, ChildSet(parent)) + [parent]
  }

  function ChildSet(parent: TileId): (s: set<TileId>)
    ensures s == Elems(Children(parent))
  {
    ChildrenCharacterised(parent, parent);
    {Child(parent, 0), Child(parent, 1), Child(parent, 2), Child(parent, 3)}
  }

  /** The first k children. */
  ghost function FirstChildren(parent: TileId, k: nat): set<TileId>
    requires k <= 4
  {
    set j: nat | j < k :: Child(parent, j)
  }

  lemma NextChild(tiles: seq<TileId>, parent: TileId, k: nat)
    requires k < 4
    ensures FirstChildren(parent, 0) == {} && FirstChildren(parent, 4) == ChildSet(parent)
    ensures FirstChildren(parent, k + 1) == FirstChildren(parent, k) + {Child(parent, k)}
    ensures Child(parent, k) !in FirstChildren(parent, k) && Child(parent, k) in ChildSet(parent)
    ensures Outside(tiles, FirstChildren(parent, k + 1))
         == Outside(Outside(tiles, FirstChildren(parent, k)), {Child(parent, k)})
  {
    forall j: nat | j < k
      ensures Child(parent, j) != Child(parent, k)
    {
      ParentChild(parent, j);
      ParentChild(parent, k);
    }
    OutsideTwice(tiles, FirstChildren(parent, k), {Child(parent, k)});
  }

  method EraseChild(rest: seq<TileId>, parent: TileId, k: nat, ghost tiles: seq<TileId>) returns (rest': seq<TileId>)
    requires k < 4 && rest == Outside(tiles, FirstChildren(parent, k)) && AllInSet(Elems(tiles), parent)
    requires Enumerates(rest, Elems(tiles) - FirstChildren(parent, k))
    ensures rest' == Outside(tiles, FirstChildren(parent, k + 1))
    ensures Enumerates(rest', Elems(tiles) - FirstChildren(parent, k + 1))
  {
    NextChild(tiles, parent, k);
    assert k == 0 || k == 1 || k == 2 || k == 3;
    assert Child(parent, k) in Elems(rest);
    rest' := Erase(rest, Child(parent, k));
  }

  method RemoveSiblings(tiles: seq<TileId>, idSet: set<TileId>, parent: TileId)
      returns (tiles': seq<TileId>, idSet': set<TileId>)
    requires Enumerates(tiles, idSet) && AllInSet(idSet, parent)
    ensures tiles' == Outside(tiles, ChildSet(parent))
    ensures Enumerates(tiles', idSet') && idSet' == idSet - ChildSet(parent)
  {
    tiles', idSet' := tiles, idSet;
    OutsideNone(tiles, {});
    NextChild(tiles, parent, 0);
    for k := 0 to 4
      invariant Enumerates(tiles', Elems(tiles) - FirstChildren(parent, k))
      invariant tiles' == Outside(tiles, FirstChildren(parent, k))
      invariant idSet' == idSet - FirstChildren(parent, k)
    {
      tiles' := EraseChild(tiles', parent, k, tiles);
      NextChild(tiles, parent, k);
      idSet' := idSet' - {Child(parent, k)};
    }
  }

  method Merge(tiles: seq<TileId>, idSet: set<TileId>, parent: TileId)
      returns (tiles': seq<TileId>, idSet': set<TileId>)
    requires Enumerates(tiles, idSet) && Antichain(idSet) && AllInSet(idSet, parent)
    ensures tiles' == Replaced(tiles, parent)
    ensures Enumerates(tiles', idSet') && idSet' == Merged(idSet, parent)
    ensures tiles' != [] && tiles'[|tiles'| - 1] == parent
    ensures KeepsOrder(tiles, Elems(Children(parent)), tiles'[..|tiles'| - 1])
  {
    tiles', idSet' := RemoveSiblings(tiles, idSet, parent);
    OutsideKeepsOrder(tiles, ChildSet(parent));
    assert (tiles' + [parent])[..|tiles'|] == tiles';
    if parent in idSet {
      MembersNearParent(idSet, parent, parent);
    }
    ElemsOne(parent);
    NoDupConcat(tiles', [parent]);
    tiles' := tiles' + [parent];
    idSet' := idSet' + {parent};
  }

  /** Searched from the end of the list, the first full sibling group is that below `parent`. */
  ghost predicate LastGroup(tiles: seq<TileId>, ids: set<TileId>, parent: TileId) {
    && AllInSet(ids, parent)
    && exists k :: 0 <= k < |tiles| && parent == Parent(tiles[k])
                   && forall j :: k < j < |tiles| ==> !AllInSet(ids, Parent(tiles[j]))
  }

  ghost function MergeAll(tiles: seq<TileId>, parents: seq<TileId>): seq<TileId>
    decreases |parents|
  {
    if parents == [] then tiles else Replaced(MergeAll(tiles, parents[..|parents| - 1]), parents[|parents| - 1])
  }

  /** Each merge happens while the list is longer than the limit, and takes the group nearest to its end. */
  ghost predicate LegalMerges(tiles: seq<TileId>, maxNTiles: nat, parents: seq<TileId>)
    decreases |parents|
  {
    parents != [] ==>
      var front := parents[..|parents| - 1];
      && LegalMerges(tiles, maxNTiles, front)
      && |MergeAll(tiles, front)| > maxNTiles
      && LastGroup(MergeAll(tiles, front), Elems(MergeAll(tiles, front)), parents[|parents| - 1])
  }

  lemma MergeAppended(tiles: seq<TileId>, maxNTiles: nat, parents: seq<TileId>, cur: seq<TileId>, parent: TileId)
    requires LegalMerges(tiles, maxNTiles, parents) && cur == MergeAll(tiles, parents) && |cur| > maxNTiles
    requires LastGroup(cur, Elems(cur), parent)
    ensures LegalMerges(tiles, maxNTiles, parents + [parent])
    ensures MergeAll(tiles, parents + [parent]) == Replaced(cur, parent)
  {
    assert (parents + [parent])[..|parents|] == parents;
  }

  /** A child of the parent, in unsigned arithmetic: the zoom level above zero wraps around, and back again. */
  function Sibling(t: TileId, k: nat): TileId
    requires k < 4
  {
    var c := Child(Parent(t), k);
    if t.zoom == 0 then TileId(0, c.x, c.y) else c
  }

  predicate AllSiblingsInSet(ids: set<TileId>, t: TileId) {
    Sibling(t, 0) in ids && Sibling(t, 1) in ids && Sibling(t, 2) in ids && Sibling(t, 3) in ids
  }

  /** In an exact cover the wrap-around makes no difference: the root never has a full sibling group. */
  lemma SiblingsAgree(s: set<TileId>, t: TileId)
    requires Partition(ROOT, s) && t in s
    ensures AllSiblingsInSet(s, t) <==> AllInSet(s, Parent(t))
    ensures t == ROOT ==> !AllSiblingsInSet(s, t)
  {
    if t.zoom == 0 {
      assert Covers(ROOT, t);
      CoversZoom(ROOT, t);
      forall u | u in s
        ensures u == ROOT
      {
        assert Covers(ROOT, u);
      }
      assert Sibling(t, 1) != ROOT && Child(Parent(t), 0) != ROOT;
    }
  }

  lemma GroupExists(tiles: seq<TileId>, idSet: set<TileId>) returns (last: nat)
    requires Enumerates(tiles, idSet) && Partition(ROOT, idSet) && |tiles| > 1
    ensures last < |tiles| && AllInSet(idSet, Parent(tiles[last]))
  {
    NoDupSize(tiles);
    var finest := Finest(idSet);
    FinestGroupFull(idSet, finest);
    assert finest in tiles;
    last :| 0 <= last < |tiles| && tiles[last] == finest;
  }

  /** From `it` on, no tile's sibling group is full. */
  ghost predicate NoGroupFrom(tiles: seq<TileId>, ids: set<TileId>, it: nat) {
    forall j :: it <= j < |tiles| ==> !AllInSet(ids, Parent(tiles[j]))
  }

  lemma NoGroupHere(tiles: seq<TileId>, ids: set<TileId>, it: nat)
    requires NoGroupFrom(tiles, ids, it + 1) && it < |tiles| && !AllSiblingsInSet(ids, tiles[it])
    requires Partition(ROOT, ids) && tiles[it] in ids
    ensures NoGroupFrom(tiles, ids, it)
  {
    SiblingsAgree(ids, tiles[it]);
  }

  lemma GroupHere(tiles: seq<TileId>, ids: set<TileId>, it: nat)
    requires NoGroupFrom(tiles, ids, it + 1) && it < |tiles| && AllSiblingsInSet(ids, tiles[it])
    requires Partition(ROOT, ids) && tiles[it] in ids
    ensures LastGroup(tiles, ids, Parent(tiles[it]))
  {
    SiblingsAgree(ids, tiles[it]);
  }

  /** Finds, from the end of the list, the first tile whose siblings are all in the set. */
  method FindGroup(tiles: seq<TileId>, idSet: set<TileId>) returns (parent: TileId)
    requires Enumerates(tiles, idSet) && Partition(ROOT, idSet) && |tiles| > 1
    ensures LastGroup(tiles, idSet, parent)
    ensures exists k: nat :: k < |tiles| && parent == Parent(tiles[k]) && NoGroupFrom(tiles, idSet, k + 1)
    ensures forall c :: c in Children(parent) ==> c in idSet
  {
    ghost var last := GroupExists(tiles, idSet);
    var it := |tiles| - 1;
    while !AllSiblingsInSet(idSet, tiles[it])
      invariant 0 <= last <= it < |tiles| && NoGroupFrom(tiles, idSet, it + 1)
      decreases it
    {
      assert tiles[it] in Elems(tiles);
      NoGroupHere(tiles, idSet, it);
      it := it - 1;
    }
    assert tiles[it] in Elems(tiles);
    GroupHere(tiles, idSet, it);
    parent := Parent(tiles[it]);
  }

  lemma GroupIndex(tiles: seq<TileId>, other: TileId) returns (j: nat)
    requires AllInSet(Elems(tiles), other)
    ensures j < |tiles| && Parent(tiles[j]) == other && tiles[j].zoom == other.zoom + 1
  {
    var c := Child(other, 0);
    assert c in tiles;
    j :| 0 <= j < |tiles| && tiles[j] == c;
    ParentChild(other, 0);
  }

  lemma NoneBehind(tiles: seq<TileId>, ids: set<TileId>, parent: TileId, j: nat) returns (k: nat)
    requires LastGroup(tiles, ids, parent) && j < |tiles| && AllInSet(ids, Parent(tiles[j]))
    ensures j <= k < |tiles| && parent == Parent(tiles[k])
  {
    k :| k < |tiles| && parent == Parent(tiles[k]) && forall i :: k < i < |tiles| ==> !AllInSet(ids, Parent(tiles[i]));
  }

  lemma GroupBelowRoot(s: set<TileId>, t: TileId)
    requires Partition(ROOT, s) && t in s && AllInSet(s, Parent(t))
    ensures t.zoom == Parent(t).zoom + 1
  {
    SiblingsAgree(s, t);
    if t.zoom == 0 {
      assert Covers(ROOT, t);
      CoversZoom(ROOT, t);
    }
  }

  /** In a sorted list the group found is among the coarsest full ones. */
  lemma CoarsestMergedFirst(tiles: seq<TileId>, parent: TileId, other: TileId)
    requires Partition(ROOT, Elems(tiles)) && FinestFirst(tiles)
    requires LastGroup(tiles, Elems(tiles), parent) && AllInSet(Elems(tiles), other)
    ensures parent.zoom <= other.zoom
  {
    var j := GroupIndex(tiles, other);
    var k := NoneBehind(tiles, Elems(tiles), parent, j);
    assert tiles[k] in Elems(tiles);
    GroupBelowRoot(Elems(tiles), tiles[k]);
  }

  /** `result` is coarser than `tiles`: every tile has exactly one ancestor-or-self in it. */
  ghost predicate Coarsens(result: set<TileId>, tiles: set<TileId>) {
    forall t :: t in tiles ==> exists a :: a in result && Covers(a, t)
  }

  lemma MergedCoarsens(s: set<TileId>, parent: TileId, tiles: set<TileId>)
    requires Coarsens(s, tiles)
    ensures Coarsens(Merged(s, parent), tiles)
  {
    forall t | t in tiles
      ensures exists a :: a in Merged(s, parent) && Covers(a, t)
    {
      var a :| a in s && Covers(a, t);
      if a in Children(parent) {
        ChildrenCharacterised(parent, a);
        assert Covers(parent, a);
        CoversTransitive(parent, a, t);
        assert parent in Merged(s, parent);
      } else {
        assert a in Merged(s, parent);
      }
    }
  }

  lemma CoarsensUnique(s: set<TileId>, t: TileId, a: TileId, b: TileId)
    requires Antichain(s) && a in s && b in s && Covers(a, t) && Covers(b, t)
    ensures a == b
  {
    if a.zoom <= b.zoom {
      CoversComparable(a, b, t);
    } else {
      CoversComparable(b, a, t);
    }
  }

  ghost predicate FinestFirst(tiles: seq<TileId>) {
    forall i, j :: 0 <= i < j < |tiles| ==> tiles[i].zoom >= tiles[j].zoom
  }

  method InsertByZoom(sorted: seq<TileId>, t: TileId) returns (sorted': seq<TileId>)
    requires FinestFirst(sorted)
    ensures FinestFirst(sorted') && multiset(sorted') == multiset(sorted) + multiset{t}
  {
    var p := |sorted|;
    while p > 0 && sorted[p - 1].zoom < t.zoom
      invariant 0 <= p <= |sorted|
      invariant p < |sorted| ==> sorted[p].zoom < t.zoom
    {
      p := p - 1;
    }
    sorted' := sorted[..p] + [t] + sorted[p..];
    InsertedSorted(sorted, p, t);
    InsertedMultiset(sorted, p, t);
  }

  lemma InsertedSorted(sorted: seq<TileId>, p: nat, t: TileId)
    requires FinestFirst(sorted) && p <= |sorted|
    requires p > 0 ==> sorted[p - 1].zoom >= t.zoom
    requires p < |sorted| ==> sorted[p].zoom < t.zoom
    ensures FinestFirst(sorted[..p] + [t] + sorted[p..])
  {
    var r := sorted[..p] + [t] + sorted[p..];
    forall i, j | 0 <= i < j < |r|
      ensures r[i].zoom >= r[j].zoom
    {
      assert r[i] == if i < p then sorted[i] else if i == p then t else sorted[i - 1];
      assert r[j] == if j < p then sorted[j] else if j == p then t else sorted[j - 1];
    }
  }

  /** Sorts by zoom level, finest first. */
  method SortByZoom(tiles: seq<TileId>) returns (sorted: seq<TileId>)
    ensures multiset(sorted) == multiset(tiles) && FinestFirst(sorted)
  {
    sorted := [];
    for i := 0 to |tiles|
      invariant multiset(sorted) == multiset(tiles[..i]) && FinestFirst(sorted)
    {
      assert tiles[..i + 1] == tiles[..i] + [tiles[i]];
      sorted := InsertByZoom(sorted, tiles[i]);
    }
    assert tiles[..|tiles|] == tiles;
  }

  /** The list has come from `sorted` by legal merges, and is still an exact cover coarser than `tiles`. */
  ghost predicate MergedFrom(tiles: set<TileId>, sorted: seq<TileId>, maxNTiles: nat, parents: seq<TileId>,
                             remaining: seq<TileId>, idSet: set<TileId>) {
    && Enumerates(remaining, idSet) && Partition(ROOT, idSet) && Coarsens(idSet, tiles)
    && LegalMerges(sorted, maxNTiles, parents) && remaining == MergeAll(sorted, parents)
  }

  /** Merges the full sibling group nearest to the end of the list. */
  method MergeNext(remaining: seq<TileId>, idSet: set<TileId>, maxNTiles: nat, ghost tiles: set<TileId>,
                   ghost sorted: seq<TileId>, ghost parents: seq<TileId>)
      returns (remaining': seq<TileId>, idSet': set<TileId>, ghost parents': seq<TileId>)
    requires MergedFrom(tiles, sorted, maxNTiles, parents, remaining, idSet) && |remaining| > maxNTiles >= 1
    ensures MergedFrom(tiles, sorted, maxNTiles, parents', remaining', idSet') && |remaining'| == |remaining| - 3
  {
    var parent := FindGroup(remaining, idSet);
    MergedPartition(idSet, parent);
    MergedCoarsens(idSet, parent, tiles);
    MergeAppended(sorted, maxNTiles, parents, remaining, parent);
    NoDupSize(remaining);
    remaining', idSet' := Merge(remaining, idSet, parent);
    parents' := parents + [parent];
    NoDupSize(remaining');
  }

  /** Sorts by zoom level and merges sibling groups, nearest to the end first, until at most `maxNTiles` tiles remain.
      The list of an exact cover stays one, every input tile keeps exactly one ancestor-or-self, and the size ends
      within two of the limit. */
  method Limit(tiles: seq<TileId>, maxNTiles: nat)
      returns (result: seq<TileId>, ghost sorted: seq<TileId>, ghost parents: seq<TileId>)
    requires Enumerates(tiles, Elems(tiles)) && Partition(ROOT, Elems(tiles)) && maxNTiles >= 1
    ensures NoDup(result) && Partition(ROOT, Elems(result)) && Coarsens(Elems(result), Elems(tiles))
    ensures |tiles| < maxNTiles ==> result == tiles
    ensures |tiles| > maxNTiles ==> maxNTiles - 2 <= |result| <= maxNTiles
    ensures |tiles| >= maxNTiles ==> multiset(sorted) == multiset(tiles) && FinestFirst(sorted)
    ensures |tiles| >= maxNTiles ==> LegalMerges(sorted, maxNTiles, parents) && result == MergeAll(sorted, parents)
  {
    CoarsensItself(Elems(tiles));
    if |tiles| < maxNTiles {
      return tiles, [], [];
    }
    var remaining := SortByZoom(tiles);
    SortedList(tiles, remaining);
    sorted, parents := remaining, [];
    var idSet: set<TileId> := set t | t in remaining;
    assert idSet == Elems(remaining);
    while |remaining| > maxNTiles
      invariant MergedFrom(Elems(tiles), sorted, maxNTiles, parents, remaining, idSet)
      invariant |tiles| > maxNTiles ==> maxNTiles - 2 <= |remaining|
      decreases |remaining|
    {
      remaining, idSet, parents := MergeNext(remaining, idSet, maxNTiles, Elems(tiles), sorted, parents);
    }
    result := remaining;
  }

  lemma SortedList(tiles: seq<TileId>, sorted: seq<TileId>)
    requires NoDup(tiles) && multiset(sorted) == multiset(tiles)
    ensures Enumerates(sorted, Elems(tiles)) && |sorted| == |tiles|
  {
    PermutationNoDup(tiles, sorted);
    NoDupSize(sorted);
    NoDupSize(tiles);
  }

  lemma CoarsensItself(s: set<TileId>)
    ensures Coarsens(s, s)
  {
    forall t | t in s
      ensures exists a :: a in s && Covers(a, t)
    {
      assert Covers(t, t);
    }
  }

  // ---- when the loop ends ---------------------------------------------------------------------

  /** The root alone has no full sibling group. */
  lemma RootCannotMerge()
    ensures Partition(ROOT, {ROOT}) && !AllSiblingsInSet({ROOT}, ROOT)
  {
    SingletonPartition(ROOT);
    SiblingsAgree({ROOT}, ROOT);
  }

  lemma PartitionNotEmpty(s: set<TileId>)
    requires Partition(ROOT, s)
    ensures s != {}
  {
    assert Covers(ROOT, ROOT);
    assert Met(s, ROOT);
  }

  ghost predicate ExactCover(tiles: seq<TileId>) {
    NoDup(tiles) && Partition(ROOT, Elems(tiles))
  }

  /** What one pass of the loop makes of the list; without a full sibling group it stays as it is. */
  ghost function Pass(tiles: seq<TileId>): seq<TileId> {
    if exists parent :: LastGroup(tiles, Elems(tiles), parent)
    then
      var parent :| LastGroup(tiles, Elems(tiles), parent);
      Replaced(tiles, parent)
    else tiles
  }

  ghost function Passes(tiles: seq<TileId>, n: nat): seq<TileId>
    decreases n
  {
    if n == 0 then tiles else Pass(Passes(tiles, n - 1))
  }

  lemma {:induction false} OutsideEnumerates(tiles: seq<TileId>, gone: set<TileId>)
    requires NoDup(tiles)
    ensures Enumerates(Outside(tiles, gone), Elems(tiles) - gone)
  {
    if tiles != [] {
      NoDupTail(tiles);
      OutsideEnumerates(tiles[1..], gone);
      assert tiles == [tiles[0]] + tiles[1..];
      ElemsOne(tiles[0]);
      ElemsConcat([tiles[0]], tiles[1..]);
      var rest := Outside(tiles[1..], gone);
      if tiles[0] in gone {
        assert Outside(tiles, gone) == rest;
      } else {
        assert Outside(tiles, gone) == [tiles[0]] + rest;
        NoDupConcat([tiles[0]], rest);
      }
    }
  }

  lemma ReplacedCover(tiles: seq<TileId>, parent: TileId)
    requires ExactCover(tiles) && AllInSet(Elems(tiles), parent)
    ensures ExactCover(Replaced(tiles, parent)) && |Replaced(tiles, parent)| == |tiles| - 3
  {
    var s, rest := Elems(tiles), Outside(tiles, ChildSet(parent));
    OutsideEnumerates(tiles, ChildSet(parent));
    if parent in s {
      MembersNearParent(s, parent, parent);
    }
    ElemsOne(parent);
    NoDupConcat(rest, [parent]);
    MergedPartition(s, parent);
    assert Elems(Replaced(tiles, parent)) == Merged(s, parent);
    NoDupSize(tiles);
    NoDupSize(Replaced(tiles, parent));
  }

  lemma LastGroupExists(tiles: seq<TileId>) returns (parent: TileId)
    requires ExactCover(tiles) && |tiles| > 1
    ensures LastGroup(tiles, Elems(tiles), parent)
  {
    var ids := Elems(tiles);
    var first := GroupExists(tiles, ids);
    var it := |tiles| - 1;
    while !AllInSet(ids, Parent(tiles[it]))
      invariant first <= it < |tiles|
      invariant forall j :: it < j < |tiles| ==> !AllInSet(ids, Parent(tiles[j]))
      decreases it
    {
      it := it - 1;
    }
    parent := Parent(tiles[it]);
  }

  /** A pass removes three tiles while more than one is left, and then changes nothing any more. */
  lemma PassShrinks(tiles: seq<TileId>)
    requires ExactCover(tiles)
    ensures ExactCover(Pass(tiles)) && |Pass(tiles)| == if |tiles| > 1 then |tiles| - 3 else |tiles|
  {
    if |tiles| > 1 {
      var parent := LastGroupExists(tiles);
    }
    if exists parent :: LastGroup(tiles, Elems(tiles), parent) {
      var parent :| LastGroup(tiles, Elems(tiles), parent) && Pass(tiles) == Replaced(tiles, parent);
      ReplacedCover(tiles, parent);
    }
  }

  lemma {:induction false} PassesShrink(tiles: seq<TileId>, n: nat)
    requires ExactCover(tiles)
    ensures ExactCover(Passes(tiles, n)) && |Passes(tiles, n)| >= 1
    ensures |Passes(tiles, n)| == 1 || |Passes(tiles, n)| + 3 * n == |tiles|
    decreases n
  {
    if n > 0 {
      PassesShrink(tiles, n - 1);
      PassShrinks(Passes(tiles, n - 1));
    }
    PartitionNotEmpty(Elems(Passes(tiles, n)));
  }

  /** On an exact cover the loop ends exactly when the maximum is at least one: no number of passes gets below the
      root alone, and enough of them get there. */
  lemma LimitEndsExactly(tiles: seq<TileId>, maxNTiles: nat)
    requires ExactCover(tiles)
    ensures (exists n: nat :: |Passes(tiles, n)| <= maxNTiles) <==> maxNTiles >= 1
  {
    PassesShrink(tiles, |tiles|);
    assert |Passes(tiles, |tiles|)| == 1;
    if exists n: nat :: |Passes(tiles, n)| <= maxNTiles {
      var n: nat :| |Passes(tiles, n)| <= maxNTiles;
      PassesShrink(tiles, n);
    }
  }

  /** With a maximum of zero the guard holds in every state that the loop can reach. */
  lemma ZeroNeverReached(tiles: set<TileId>, sorted: seq<TileId>, parents: seq<TileId>, remaining: seq<TileId>,
                         idSet: set<TileId>)
    requires MergedFrom(tiles, sorted, 0, parents, remaining, idSet)
    ensures |remaining| > 0
  {
    PartitionNotEmpty(idSet);
  }

  // ---- refining against availability ----------------------------------------------------------

  function DrawRefine(available: set<TileId>, refine: Refine): Refine {
    (t: TileId) => Child(t, 0) in available && Child(t, 1) in available && Child(t, 2) in available
                   && Child(t, 3) in available && refine(t)
  }

  lemma RefinedAvailable(available: set<TileId>, refine: Refine, t: TileId, k: nat)
    requires DrawRefine(available, refine)(t) && k < 4
    ensures Child(t, k) in available
  {
    assert k == 0 || k == 1 || k == 2 || k == 3;
  }

  lemma LeavesAvailable(available: set<TileId>, refine: Refine, maxZoom: nat)
    requires StopsAt(refine, maxZoom) && StopsAt(DrawRefine(available, refine), maxZoom)
    ensures forall t :: t in Elems(Leaves(DrawRefine(available, refine), maxZoom, ROOT)) && t != ROOT ==> t in available
  {
    forall t | t in Elems(Leaves(DrawRefine(available, refine), maxZoom, ROOT)) && t != ROOT
      ensures t in available
    {
      LeafParentRefined(DrawRefine(available, refine), maxZoom, ROOT, t);
      ChildParent(t);
      RefinedAvailable(available, refine, Parent(t), Quadrant(t));
    }
  }

  lemma DrawListCoarsens(available: set<TileId>, refine: Refine, maxZoom: nat)
    requires StopsAt(refine, maxZoom) && StopsAt(DrawRefine(available, refine), maxZoom)
    ensures Coarsens(Elems(Leaves(DrawRefine(available, refine), maxZoom, ROOT)), Elems(GenerateList(refine, maxZoom)))
  {
    var drawRefine := DrawRefine(available, refine);
    forall t | t in Elems(GenerateList(refine, maxZoom))
      ensures exists a :: a in Elems(Leaves(drawRefine, maxZoom, ROOT)) && Covers(a, t)
    {
      var a := CoarserLeaves(drawRefine, refine, maxZoom, ROOT, t);
      assert a in Elems(Leaves(drawRefine, maxZoom, ROOT));
    }
  }

  class DrawListGenerator {
    var availableTiles: set<TileId>

    constructor ()
      ensures availableTiles == {}
    {
      availableTiles := {};
    }

    method AddTile(id: TileId)
      modifies this
      ensures availableTiles == old(availableTiles) + {id}
    {
      availableTiles := availableTiles + {id};
    }

    method RemoveTile(id: TileId)
      modifies this
      ensures availableTiles == old(availableTiles) - {id}
    {
      availableTiles := availableTiles - {id};
    }

    /** The tiles that cannot be refined any more, an exact partition. All but possibly the root are available, and
        the leaves of the unrestricted list all lie in it. */
    method GenerateFor(refine: Refine, maxZoom: nat) returns (tileset: set<TileId>)
      requires StopsAt(refine, maxZoom)
      ensures Partition(ROOT, tileset)
      ensures forall t :: t in tileset && t != ROOT ==> t in availableTiles
      ensures Coarsens(tileset, Elems(GenerateList(refine, maxZoom)))
      ensures forall t :: t in tileset <==> IsLeaf(DrawRefine(availableTiles, refine), ROOT, t)
      ensures StopsAt(DrawRefine(availableTiles, refine), maxZoom)
      ensures |tileset| == 3 * |Inner(DrawRefine(availableTiles, refine), maxZoom, ROOT)| + 1
    {
      var drawRefine := DrawRefine(availableTiles, refine);
      var allLeaves := Leaves(drawRefine, maxZoom, ROOT);
      tileset := set t | t in allLeaves;
      assert tileset == Elems(allLeaves);
      LeavesPartition(drawRefine, maxZoom, ROOT);
      NoDupSize(allLeaves);
      forall t
        ensures t in tileset <==> IsLeaf(drawRefine, ROOT, t)
      {
        LeafExact(drawRefine, maxZoom, ROOT, t);
      }
      LeavesAvailable(availableTiles, refine, maxZoom);
      DrawListCoarsens(availableTiles, refine, maxZoom);
    }
  }

  /** When the available tiles are the children of the resident quads, a tile is refined exactly when the camera
      wants it and its quad is resident. */
  lemma AvailabilityIsResidency(quads: set<TileId>, refine: Refine, t: TileId)
    ensures DrawRefine(ChildrenOf(quads), refine)(t) <==> t in quads && refine(t)
  {
    AllChildrenAvailable(quads, t);
    assert (forall k :: 0 <= k < 4 ==> Child(t, k) in ChildrenOf(quads))
      <==> AllInSet(ChildrenOf(quads), t);
  }
}
