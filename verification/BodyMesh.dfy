/** body_mesh: the bounding-volume hierarchy and its closest-point query. */
module BodyMeshQuery {
  import opened Options
  import opened TriangleGeometry

  // --- boxes -----------------------------------------------------------------------------

  predicate InBox(lo: V3, hi: V3, q: V3) {
    lo.x <= q.x <= hi.x && lo.y <= q.y <= hi.y && lo.z <= q.z <= hi.z
  }

  function Excess(lo: real, hi: real, p: real): real {
    if p < lo then lo - p else if p > hi then p - hi else 0.0
  }

  /** Squared distance of p from the box. */
  function BoxDist2(lo: V3, hi: V3, p: V3): real {
    Excess(lo.x, hi.x, p.x) * Excess(lo.x, hi.x, p.x)
    + Excess(lo.y, hi.y, p.y) * Excess(lo.y, hi.y, p.y)
    + Excess(lo.z, hi.z, p.z) * Excess(lo.z, hi.z, p.z)
  }

  lemma ExcessLeast(lo: real, hi: real, p: real, q: real)
    requires lo <= q <= hi
    ensures Excess(lo, hi, p) * Excess(lo, hi, p) <= (p - q) * (p - q)
  {
    var e := Excess(lo, hi, p);
    var d := if p < q then q - p else p - q;
    assert 0.0 <= e <= d;
    assert e * e <= d * d by { TimesLe(e, e, d); TimesLe(d, e, d); }
    assert d * d == (p - q) * (p - q);
  }

  lemma BoxNotFarther(lo: V3, hi: V3, p: V3, q: V3)
    requires InBox(lo, hi, q)
    ensures BoxDist2(lo, hi, p) <= Dist2(p, q)
  {
    hide Excess;
    ExcessLeast(lo.x, hi.x, p.x, q.x);
    ExcessLeast(lo.y, hi.y, p.y, q.y);
    ExcessLeast(lo.z, hi.z, p.z, q.z);
  }

  /** And no less than the nearest point of the box: it is the squared distance to that. */
  lemma BoxDist2Attained(lo: V3, hi: V3, p: V3) returns (q: V3)
    requires lo.x <= hi.x && lo.y <= hi.y && lo.z <= hi.z
    ensures InBox(lo, hi, q) && BoxDist2(lo, hi, p) == Dist2(p, q)
  {
    var x := ExcessAttained(lo.x, hi.x, p.x);
    var y := ExcessAttained(lo.y, hi.y, p.y);
    var z := ExcessAttained(lo.z, hi.z, p.z);
    q := V3(x, y, z);
    hide Excess;
  }

  lemma ExcessAttained(lo: real, hi: real, p: real) returns (q: real)
    requires lo <= hi
    ensures lo <= q <= hi && Excess(lo, hi, p) * Excess(lo, hi, p) == (p - q) * (p - q)
  {
    q := if p < lo then lo else if p > hi then hi else p;
    var e, d := Excess(lo, hi, p), p - q;
    assert e == d || e == -d;
    assert (-d) * (-d) == d * d;
  }

  lemma Between(lo: real, hi: real, a: real, b: real, c: real, s: real, t: real)
    requires lo <= a <= hi && lo <= b <= hi && lo <= c <= hi && Weights(s, t)
    ensures lo <= a + (b - a) * s + (c - a) * t <= hi
  {
    var r := 1.0 - s - t;
    var x := Bounded(r, lo, a);
    var y := Bounded(s, lo, b);
    var z := Bounded(t, lo, c);
    var x' := Bounded(r, a, hi);
    var y' := Bounded(s, b, hi);
    var z' := Bounded(t, c, hi);
    assert r * lo + s * lo + t * lo == lo && r * hi + s * hi + t * hi == hi;
    assert r * a + s * b + t * c == a + (b - a) * s + (c - a) * t;
  }

  lemma PointAtParts(a: V3, b: V3, c: V3, s: real, t: real)
    ensures PointAt(a, b, c, s, t).x == a.x + (b.x - a.x) * s + (c.x - a.x) * t
    ensures PointAt(a, b, c, s, t).y == a.y + (b.y - a.y) * s + (c.y - a.y) * t
    ensures PointAt(a, b, c, s, t).z == a.z + (b.z - a.z) * s + (c.z - a.z) * t
  {
  }

  /** A box holding a triangle's corners holds the triangle. */
  lemma BoxConvex(lo: V3, hi: V3, a: V3, b: V3, c: V3, q: V3)
    requires InBox(lo, hi, a) && InBox(lo, hi, b) && InBox(lo, hi, c) && InTriangle(a, b, c, q)
    ensures InBox(lo, hi, q)
  {
    hide PointAt, InBox;
    var s, t :| Weights(s, t) && q == PointAt(a, b, c, s, t);
    BoxHoldsPoint(lo, hi, a, b, c, s, t);
  }

  lemma BoxHoldsPoint(lo: V3, hi: V3, a: V3, b: V3, c: V3, s: real, t: real)
    requires InBox(lo, hi, a) && InBox(lo, hi, b) && InBox(lo, hi, c) && Weights(s, t)
    ensures InBox(lo, hi, PointAt(a, b, c, s, t))
  {
    hide PointAt, Weights;
    PointAtParts(a, b, c, s, t);
    Between(lo.x, hi.x, a.x, b.x, c.x, s, t);
    Between(lo.y, hi.y, a.y, b.y, c.y, s, t);
    Between(lo.z, hi.z, a.z, b.z, c.z, s, t);
  }

  // --- the mesh ------------------------------------------------------------------------------

  datatype Mesh = Mesh(v: seq<V3>, t: seq<nat>)

  predicate ValidMesh(m: Mesh) {
    |m.t| % 3 == 0 && forall i :: 0 <= i < |m.t| ==> m.t[i] < |m.v|
  }

  function NTri(m: Mesh): nat { |m.t| / 3 }

  function Corner3(m: Mesh, f: nat, r: nat): V3
    requires ValidMesh(m) && f < NTri(m) && r < 3
  {
    m.v[m.t[3 * f + r]]
  }

  /** Triangle f's closest point to p, when closestInTri finds one. */
  function FootOn(m: Mesh, f: nat, p: V3): Option<Foot>
    requires ValidMesh(m) && f < NTri(m)
  {
    ClosestPoint(Corner3(m, f, 0), Corner3(m, f, 1), Corner3(m, f, 2), p)
  }

  ghost predicate OnTriangle(m: Mesh, f: nat, x: V3)
    requires ValidMesh(m) && f < NTri(m)
  {
    InTriangle(Corner3(m, f, 0), Corner3(m, f, 1), Corner3(m, f, 2), x)
  }

  /** Triangle f has no foot nearer to p than d2. */
  predicate NotNearer2(m: Mesh, f: nat, p: V3, d2: real)
    requires ValidMesh(m) && f < NTri(m)
  {
    FootOn(m, f, p).Some? ==> d2 <= Dist2(p, FootOn(m, f, p).value.point)
  }

  predicate TriInBox(m: Mesh, f: nat, lo: V3, hi: V3)
    requires ValidMesh(m) && f < NTri(m)
  {
    forall r :: 0 <= r < 3 ==> InBox(lo, hi, Corner3(m, f, r))
  }

  /** A box that is not nearer than d2 holds no nearer triangle. */
  lemma PruneIsSafe(m: Mesh, f: nat, lo: V3, hi: V3, p: V3, d2: real)
    requires ValidMesh(m) && f < NTri(m) && TriInBox(m, f, lo, hi) && d2 <= BoxDist2(lo, hi, p)
    ensures NotNearer2(m, f, p, d2)
  {
    hide ClosestPoint, BoxDist2, InTriangle, Dist2, InBox;
    var a, b, c := Corner3(m, f, 0), Corner3(m, f, 1), Corner3(m, f, 2);
    if FootOn(m, f, p).Some? {
      var q := FootOn(m, f, p).value.point;
      ClosestPointIsNearest(a, b, c, p);
      BoxConvex(lo, hi, a, b, c, q);
      BoxNotFarther(lo, hi, p, q);
    }
  }

  // --- the tree --------------------------------------------------------------------------------

  /** left is 0 in a leaf. */
  datatype Node = Node(lo: V3, hi: V3, left: nat, right: nat, start: nat, count: nat)

  const LEAF: nat := 4

  /** The nodes of a subtree over count triangles. */
  function NodeCount(count: nat): (n: nat)
    ensures n > 0
  {
    if count <= LEAF then 1 else 1 + NodeCount(count / 2) + NodeCount(count - count / 2)
  }

  lemma NodeCountSplit(count: nat)
    requires count > LEAF
    ensures NodeCount(count) == 1 + NodeCount(count / 2) + NodeCount(count - count / 2)
  {
  }

  predicate Names(m: Mesh, order: seq<nat>) {
    forall k :: 0 <= k < |order| ==> order[k] < NTri(m)
  }

  ghost predicate BoxHolds(m: Mesh, order: seq<nat>, node: Node)
    requires ValidMesh(m)
  {
    forall f :: f in order ==> f < NTri(m) && TriInBox(m, f, node.lo, node.hi)
  }

  /** The nodes from id on are the subtree over order[start..start + count], in the
      order buildNode lays them out; every box holds the triangles below it. */
  ghost predicate Subtree(m: Mesh, nodes: seq<Node>, order: seq<nat>, id: nat, start: nat, count: nat)
    requires ValidMesh(m)
    decreases count
  {
    && id + NodeCount(count) <= |nodes| && start + count <= |order|
    && BoxHolds(m, order[start..start + count], nodes[id])
    && if count <= LEAF then nodes[id].left == 0 && nodes[id].start == start && nodes[id].count == count
       else
         && nodes[id].left == id + 1 && nodes[id].right == id + 1 + NodeCount(count / 2)
         && Subtree(m, nodes, order, id + 1, start, count / 2)
         && Subtree(m, nodes, order, id + 1 + NodeCount(count / 2), start + count / 2, count - count / 2)
  }

  /** A subtree depends on its own nodes and its own part of order only. */
  lemma {:induction false} SubtreeFrame(m: Mesh, nodes: seq<Node>, order: seq<nat>, nodes': seq<Node>, order': seq<nat>, id: nat, start: nat, count: nat)
    requires ValidMesh(m) && Subtree(m, nodes, order, id, start, count)
    requires id + NodeCount(count) <= |nodes'| && start + count <= |order'|
    requires forall i :: id <= i < id + NodeCount(count) ==> nodes'[i] == nodes[i]
    requires order'[start..start + count] == order[start..start + count]
    ensures Subtree(m, nodes', order', id, start, count)
    decreases count
  {
    hide BoxHolds, NodeCount;
    if count > LEAF {
      NodeCountSplit(count);
      var h := count / 2;
      var right := id + 1 + NodeCount(h);
      SliceParts(order, order', start, h, count);
      SubtreeFrame(m, nodes, order, nodes', order', id + 1, start, h);
      SubtreeFrame(m, nodes, order, nodes', order', right, start + h, count - h);
    }
  }

  lemma SliceParts(order: seq<nat>, order': seq<nat>, start: nat, h: nat, count: nat)
    requires h <= count && start + count <= |order| && start + count <= |order'|
    requires order'[start..start + count] == order[start..start + count]
    ensures order'[start..start + h] == order[start..start + h]
    ensures order'[start + h..start + count] == order[start + h..start + count]
  {
    assert order[start..start + count][..h] == order[start..start + h];
    assert order'[start..start + count][..h] == order'[start..start + h];
    assert order[start..start + count][h..] == order[start + h..start + count];
    assert order'[start..start + count][h..] == order'[start + h..start + count];
  }

  // --- its height --------------------------------------------------------------------------------

  function Height(count: nat): nat {
    if count <= LEAF then 0
    else 1 + if Height(count / 2) > Height(count - count / 2) then Height(count / 2) else Height(count - count / 2)
  }

  function Pow2(n: nat): nat { if n == 0 then 1 else 2 * Pow2(n - 1) }

  /** 4 * 2^h triangles make a tree of height at most h. */
  lemma {:induction false} HeightBound(count: nat, h: nat)
    requires count <= LEAF * Pow2(h)
    ensures Height(count) <= h
    decreases h
  {
    if count > LEAF {
      HeightBound(count / 2, h - 1);
      HeightBound(count - count / 2, h - 1);
    }
  }

  lemma Pow2Of30()
    ensures Pow2(30) == 0x4000_0000
  {
    assert Pow2(5) == 32;
    assert Pow2(10) == 1024;
    assert Pow2(15) == 0x8000;
    assert Pow2(20) == 0x10_0000;
    assert Pow2(25) == 0x200_0000;
  }

  // --- building ------------------------------------------------------------------------------

  function Component(u: V3, axis: nat): real {
    if axis == 0 then u.x else if axis == 1 then u.y else u.z
  }

  function Min(a: real, b: real): real { if b < a then b else a }
  function Max(a: real, b: real): real { if a < b then b else a }
  function MinV(a: V3, b: V3): V3 { V3(Min(a.x, b.x), Min(a.y, b.y), Min(a.z, b.z)) }
  function MaxV(a: V3, b: V3): V3 { V3(Max(a.x, b.x), Max(a.y, b.y), Max(a.z, b.z)) }

  /** std::nth_element on a range: what it is told about and what it may return. */
  type Partition = (seq<nat>, nat, seq<V3>, nat) -> seq<nat>

  ghost predicate Permutes(nth: Partition) {
    forall xs: seq<nat>, k: nat, cent: seq<V3>, axis: nat :: multiset(nth(xs, k, cent, axis)) == multiset(xs)
  }

  function FirstN(n: nat): (s: seq<nat>)
    ensures |s| == n && forall i :: 0 <= i < n ==> s[i] == i
  {
    if n == 0 then [] else FirstN(n - 1) + [n - 1]
  }

  /** What build accepts: whole vertices and triangles, at least one triangle, and
      indices that name vertices. */
  predicate Accepted(pos: seq<real>, tris: seq<int>) {
    SizesFit(pos, tris) && forall i :: 0 <= i < |tris| ==> 0 <= tris[i] < |pos| / 3
  }

  predicate SizesFit(pos: seq<real>, tris: seq<int>) {
    |pos| >= 9 && |pos| % 3 == 0 && |tris| >= 3 && |tris| % 3 == 0
  }

  /** The first index that names no vertex. */
  function FirstBad(tris: seq<int>, nV: nat): (k: nat)
    ensures k <= |tris| && (k < |tris| ==> !(0 <= tris[k] < nV)) && forall j :: 0 <= j < k ==> 0 <= tris[j] < nV
  {
    if tris == [] || !(0 <= tris[0] < nV) then 0 else 1 + FirstBad(tris[1..], nV)
  }

  lemma FirstBadIs(tris: seq<int>, nV: nat, i: nat)
    requires i < |tris| && !(0 <= tris[i] < nV) && forall j :: 0 <= j < i ==> 0 <= tris[j] < nV
    ensures FirstBad(tris, nV) == i
  {
  }

  /** One bad index, the third: the refusal keeps two indices, which make no triangle. */
  lemma BadIndexRefused(pos: seq<real>)
    requires |pos| >= 9 && |pos| % 3 == 0
    ensures var tris := [0, 1, |pos| / 3];
            SizesFit(pos, tris) && !Accepted(pos, tris) && |tris[..FirstBad(tris, |pos| / 3)]| < 3
  {
    FirstBadIs([0, 1, |pos| / 3], |pos| / 3, 2);
  }

  lemma SameMembers(xs: seq<nat>, ys: seq<nat>)
    requires multiset(xs) == multiset(ys)
    ensures |xs| == |ys| && forall f :: f in xs <==> f in ys
  {
    assert |multiset(xs)| == |xs| && |multiset(ys)| == |ys|;
    forall f ensures f in xs <==> f in ys {
      assert f in multiset(xs) <==> f in multiset(ys);
    }
  }

  lemma LeafSubtree(m: Mesh, nodes: seq<Node>, order: seq<nat>, id: nat, start: nat, count: nat)
    requires ValidMesh(m) && count <= LEAF && id < |nodes| && start + count <= |order|
    requires BoxHolds(m, order[start..start + count], nodes[id])
    requires nodes[id].left == 0 && nodes[id].start == start && nodes[id].count == count
    ensures Subtree(m, nodes, order, id, start, count)
  {
  }

  lemma InnerSubtree(m: Mesh, nodes: seq<Node>, order: seq<nat>, id: nat, start: nat, count: nat)
    requires ValidMesh(m) && count > LEAF && id + NodeCount(count) <= |nodes| && start + count <= |order|
    requires BoxHolds(m, order[start..start + count], nodes[id])
    requires nodes[id].left == id + 1 && nodes[id].right == id + 1 + NodeCount(count / 2)
    requires Subtree(m, nodes, order, id + 1, start, count / 2)
    requires Subtree(m, nodes, order, id + 1 + NodeCount(count / 2), start + count / 2, count - count / 2)
    ensures Subtree(m, nodes, order, id, start, count)
  {
    hide BoxHolds, NodeCount;
  }

  lemma SubtreeInside(m: Mesh, nodes: seq<Node>, order: seq<nat>, id: nat, start: nat, count: nat)
    requires ValidMesh(m) && Subtree(m, nodes, order, id, start, count)
    ensures id + NodeCount(count) <= |nodes| && start + count <= |order|
    ensures BoxHolds(m, order[start..start + count], nodes[id])
  {
    hide BoxHolds;
  }

  /** order with its part from start on replaced. */
  function Splice(order: seq<nat>, start: nat, part: seq<nat>): (r: seq<nat>)
    requires start + |part| <= |order|
    ensures |r| == |order| && r[..start] == order[..start] && r[start..start + |part|] == part
    ensures r[start + |part|..] == order[start + |part|..]
  {
    order[..start] + part + order[start + |part|..]
  }

  /** order' permutes order's part from start to end and nothing else. */
  ghost predicate PermutedIn(order: seq<nat>, order': seq<nat>, start: nat, end: nat) {
    && start <= end <= |order| == |order'|
    && order'[..start] == order[..start] && order'[end..] == order[end..]
    && multiset(order'[start..end]) == multiset(order[start..end])
  }

  lemma PermutedInside(order: seq<nat>, order': seq<nat>, start: nat, end: nat, lo: nat, hi: nat)
    requires PermutedIn(order, order', start, end) && lo <= start && end <= hi <= |order|
    ensures PermutedIn(order, order', lo, hi)
  {
    Split3(order, start, end, lo, hi);
    Split3(order', start, end, lo, hi);
    assert order'[lo..start] == order'[..start][lo..];
    assert order[lo..start] == order[..start][lo..];
    assert order'[end..hi] == order'[end..][..hi - end];
    assert order[end..hi] == order[end..][..hi - end];
    assert order'[..lo] == order'[..start][..lo];
    assert order[..lo] == order[..start][..lo];
    assert order'[hi..] == order'[end..][hi - end..];
    assert order[hi..] == order[end..][hi - end..];
  }

  lemma Split3(s: seq<nat>, start: nat, end: nat, lo: nat, hi: nat)
    requires lo <= start <= end <= hi <= |s|
    ensures s[lo..hi] == s[lo..start] + s[start..end] + s[end..hi]
  {
  }

  lemma PermutedThen(a: seq<nat>, b: seq<nat>, c: seq<nat>, start: nat, end: nat)
    requires PermutedIn(a, b, start, end) && PermutedIn(b, c, start, end)
    ensures PermutedIn(a, c, start, end)
  {
  }

  /** A permuted part names the same triangles. */
  lemma PermutedMembers(order: seq<nat>, order': seq<nat>, start: nat, end: nat)
    requires PermutedIn(order, order', start, end)
    ensures forall f :: f in order'[start..end] <==> f in order[start..end]
    ensures forall f :: f in order' <==> f in order
  {
    SameMembers(order'[start..end], order[start..end]);
    Split3(order, start, end, 0, |order|);
    Split3(order', start, end, 0, |order|);
    assert order[0..|order|] == order && order'[0..|order'|] == order';
  }

  lemma NamesPermuted(m: Mesh, order: seq<nat>, order': seq<nat>, start: nat, end: nat)
    requires Names(m, order) && PermutedIn(order, order', start, end)
    ensures |order'| == |order| && Names(m, order')
  {
    PermutedMembers(order, order', start, end);
    forall k | 0 <= k < |order'| ensures order'[k] < NTri(m) {
      assert order'[k] in order;
    }
  }

  datatype Hit = Hit(point: V3, dist2: real, tri: nat, region: Region, sub: nat)

  class BodyMesh {
    const nth: Partition
    const far: real
    var m: Mesh
    var nodes: seq<Node>
    var order: seq<nat>

    ghost predicate Built()
      reads this
    {
      && ValidMesh(m) && multiset(order) == multiset(FirstN(NTri(m))) && |order| == NTri(m) > 0
      && Subtree(m, nodes, order, 0, 0, NTri(m))
    }

    constructor (nth: Partition, far: real)
      ensures this.nth == nth && nodes == []
    {
      this.nth, this.far := nth, far;
      m, nodes, order := Mesh([], []), [], [];
    }

    /** The box of order[start..start + count], and that of its centroids. */
    method Boxes(start: nat, count: nat, cent: seq<V3>) returns (lo: V3, hi: V3, clo: V3, chi: V3)
      requires ValidMesh(m) && |cent| == NTri(m) && start + count <= |order|
      requires Names(m, order)
      ensures forall k :: start <= k < start + count ==> TriInBox(m, order[k], lo, hi)
    {
      lo, hi := V3(far, far, far), V3(-far, -far, -far);
      clo, chi := lo, hi;
      for k := start to start + count
        invariant forall j :: start <= j < k ==> TriInBox(m, order[j], lo, hi)
      {
        var f := order[k];
        ghost var lo0, hi0 := lo, hi;
        for r := 0 to 3
          invariant lo.x <= lo0.x && lo.y <= lo0.y && lo.z <= lo0.z && hi.x >= hi0.x && hi.y >= hi0.y && hi.z >= hi0.z
          invariant forall q :: 0 <= q < r ==> InBox(lo, hi, Corner3(m, f, q))
        {
          var p := Corner3(m, f, r);
          lo, hi := MinV(lo, p), MaxV(hi, p);
        }
        forall j | start <= j < k ensures TriInBox(m, order[j], lo, hi) {
          assert TriInBox(m, order[j], lo0, hi0);
        }
        clo, chi := MinV(clo, cent[f]), MaxV(chi, cent[f]);
      }
    }

    /** A permuted part of order is still within the box. */
    static lemma BoxHoldsPermuted(m: Mesh, order: seq<nat>, order': seq<nat>, start: nat, end: nat, node: Node)
      requires ValidMesh(m) && PermutedIn(order, order', start, end) && BoxHolds(m, order[start..end], node)
      ensures BoxHolds(m, order'[start..end], node)
    {
      PermutedMembers(order, order', start, end);
    }

    static lemma BoxHoldsBy(m: Mesh, order: seq<nat>, start: nat, count: nat, node: Node)
      requires ValidMesh(m) && start + count <= |order| && Names(m, order)
      requires forall k :: start <= k < start + count ==> TriInBox(m, order[k], node.lo, node.hi)
      ensures BoxHolds(m, order[start..start + count], node)
    {
    }

    static lemma BoxHoldsSame(m: Mesh, part: seq<nat>, node: Node, node': Node)
      requires ValidMesh(m) && BoxHolds(m, part, node) && node'.lo == node.lo && node'.hi == node.hi
      ensures BoxHolds(m, part, node')
    {
    }

    static lemma PermutedSelf(order: seq<nat>, start: nat, end: nat)
      requires start <= end <= |order|
      ensures PermutedIn(order, order, start, end)
    {
    }

    /** nth_element on a part of order. */
    function Partitioned(order: seq<nat>, start: nat, count: nat, k: nat, cent: seq<V3>, axis: nat): (order': seq<nat>)
      requires start + count <= |order| && Permutes(nth)
      ensures PermutedIn(order, order', start, start + count)
    {
      var part := nth(order[start..start + count], k, cent, axis);
      SameMembers(part, order[start..start + count]);
      Splice(order, start, part)
    }

    /** The node over order[start..start + count], not yet linked, and the axis along
        which its centroids spread most. */
    method AddNode(start: nat, count: nat, cent: seq<V3>) returns (axis: nat)
      requires ValidMesh(m) && |cent| == NTri(m) && start + count <= |order| && Names(m, order)
      modifies `nodes
      ensures |nodes| == |old(nodes)| + 1 && nodes[..|old(nodes)|] == old(nodes)
      ensures var node := nodes[|old(nodes)|]; node.left == 0 && BoxHolds(m, order[start..start + count], node)
    {
      hide TriInBox, BoxHolds;
      var lo, hi, clo, chi := Boxes(start, count, cent);
      var node := Node(lo, hi, 0, 0, 0, 0);
      BoxHoldsBy(m, order, start, count, node);
      nodes := nodes + [node];
      axis := 0;
      for a := 1 to 3 {
        if Component(chi, a) - Component(clo, a) > Component(chi, axis) - Component(clo, axis) { axis := a; }
      }
    }

    method BuildNode(start: nat, count: nat, cent: seq<V3>) returns (id: nat)
      requires ValidMesh(m) && |cent| == NTri(m) && Permutes(nth) && start + count <= |order|
      requires Names(m, order)
      modifies `nodes, `order
      ensures id == |old(nodes)| && |nodes| == id + NodeCount(count) && nodes[..id] == old(nodes)
      ensures PermutedIn(old(order), order, start, start + count) && |order| == |old(order)| && Names(m, order)
      ensures Subtree(m, nodes, order, id, start, count)
      decreases count
    {
      hide Subtree, Permutes, PermutedIn, BoxHolds, Names, ValidMesh, Splice, Partitioned;
      id := |nodes|;
      var axis := AddNode(start, count, cent);
      ghost var order0, nodes1 := order, nodes;
      if count <= LEAF {
        nodes := nodes[id := nodes[id].(start := start, count := count)];
        BoxHoldsSame(m, order[start..start + count], nodes1[id], nodes[id]);
        LeafSubtree(m, nodes, order, id, start, count);
        PermutedSelf(order, start, start + count);
        return;
      }
      var mid := start + count / 2;
      order := Partitioned(order, start, count, mid - start, cent, axis);
      ghost var order1 := order;
      NamesPermuted(m, order0, order1, start, start + count);
      var l := BuildNode(start, mid - start, cent);
      ghost var nodes2, order2 := nodes, order;
      var r := BuildNode(mid, start + count - mid, cent);
      ghost var nodes3 := nodes;
      nodes := nodes[id := nodes[id].(left := l, right := r)];
      BoxHoldsPermuted(m, order0, order1, start, start + count, nodes1[id]);
      Assembled(m, order1, order2, order, nodes1, nodes2, nodes3, id, start, count);
      PermutedThen(order0, order1, order, start, start + count);
    }

    /** Both children built: the node over them is a subtree. */
    static lemma Assembled(m: Mesh, order1: seq<nat>, order2: seq<nat>, order3: seq<nat>, nodes1: seq<Node>, nodes2: seq<Node>, nodes3: seq<Node>, id: nat, start: nat, count: nat)
      requires ValidMesh(m) && count > LEAF && |nodes1| == id + 1 && start + count <= |order1|
      requires |nodes2| == id + 1 + NodeCount(count / 2) && nodes2[..id + 1] == nodes1
      requires |nodes3| == |nodes2| + NodeCount(count - count / 2) && nodes3[..|nodes2|] == nodes2
      requires PermutedIn(order1, order2, start, start + count / 2) && PermutedIn(order2, order3, start + count / 2, start + count)
      requires Subtree(m, nodes2, order2, id + 1, start, count / 2)
      requires Subtree(m, nodes3, order3, |nodes2|, start + count / 2, count - count / 2)
      requires BoxHolds(m, order1[start..start + count], nodes1[id])
      ensures var nodes := nodes3[id := nodes3[id].(left := id + 1, right := |nodes2|)];
              && |nodes| == id + NodeCount(count) && nodes[..id] == nodes1[..id]
              && Subtree(m, nodes, order3, id, start, count)
      ensures PermutedIn(order1, order3, start, start + count)
    {
      hide Subtree, BoxHolds, NodeCount, PermutedIn;
      var h, mid, end := count / 2, start + count / 2, start + count;
      var nodes := nodes3[id := nodes3[id].(left := id + 1, right := |nodes2|)];
      NodeCountSplit(count);
      PermutedParts(order2, order3, mid, end);
      PermutedInside(order1, order2, start, mid, start, end);
      PermutedInside(order2, order3, mid, end, start, end);
      PermutedThen(order1, order2, order3, start, end);
      PermutedParts(order1, order3, start, end);
      KeptNodes(nodes1, nodes2, nodes3, nodes, id);
      assert order3[start..mid] == order3[..mid][start..] && order2[start..mid] == order2[..mid][start..];
      SubtreeFrame(m, nodes2, order2, nodes, order3, id + 1, start, h);
      SubtreeFrame(m, nodes3, order3, nodes, order3, |nodes2|, mid, count - h);
      BoxHoldsPermuted(m, order1, order3, start, end, nodes1[id]);
      BoxHoldsSame(m, order3[start..end], nodes1[id], nodes[id]);
      InnerSubtree(m, nodes, order3, id, start, count);
    }

    static lemma PermutedParts(order: seq<nat>, order': seq<nat>, start: nat, end: nat)
      requires PermutedIn(order, order', start, end)
      ensures start <= end <= |order| == |order'| && order'[..start] == order[..start] && order'[end..] == order[end..]
    {
    }

    static lemma KeptNodes(nodes1: seq<Node>, nodes2: seq<Node>, nodes3: seq<Node>, nodes: seq<Node>, id: nat)
      requires |nodes1| == id + 1 <= |nodes2| <= |nodes3| && nodes2[..id + 1] == nodes1 && nodes3[..|nodes2|] == nodes2
      requires nodes == nodes3[id := nodes3[id].(left := id + 1, right := |nodes2|)]
      ensures forall i :: id < i < |nodes2| ==> nodes[i] == nodes2[i]
      ensures nodes[..id] == nodes1[..id] && nodes[id].lo == nodes1[id].lo && nodes[id].hi == nodes1[id].hi
      ensures nodes[id].left == id + 1 && nodes[id].right == |nodes2|
    {
      assert nodes2[id] == nodes2[..id + 1][id];
      assert nodes3[id] == nodes3[..|nodes2|][id];
      forall i | id < i < |nodes2| ensures nodes[i] == nodes2[i] {
        assert nodes3[i] == nodes3[..|nodes2|][i];
      }
      forall i | 0 <= i < id ensures nodes[i] == nodes1[i] {
        assert nodes3[i] == nodes3[..|nodes2|][i];
        assert nodes2[i] == nodes2[..id + 1][i];
      }
    }

    /** Loads the mesh and builds the tree. A mesh refused for its sizes changes nothing;
        one refused for an index leaves its vertices and the indices before that one, under
        the tree of the mesh before. */
    method Build(pos: seq<real>, tris: seq<int>, scale: real) returns (ok: bool)
      requires Permutes(nth)
      modifies this
      ensures ok <==> Accepted(pos, tris)
      ensures ok ==> Built() && m.t == tris && |m.v| == |pos| / 3
      ensures ok ==> forall i :: 0 <= i < |m.v| ==> m.v[i] == V3(pos[3 * i] * scale, pos[3 * i + 1] * scale, pos[3 * i + 2] * scale)
      ensures !SizesFit(pos, tris) ==> m == old(m) && nodes == old(nodes) && order == old(order)
      ensures !ok ==> nodes == old(nodes) && order == old(order)
      ensures !ok && SizesFit(pos, tris) ==>
                && |m.v| == |pos| / 3
                && (forall i :: 0 <= i < |m.v| ==> m.v[i] == V3(pos[3 * i] * scale, pos[3 * i + 1] * scale, pos[3 * i + 2] * scale))
                && m.t == tris[..FirstBad(tris, |pos| / 3)]
    {
      if |pos| < 9 || |pos| % 3 != 0 || |tris| < 3 || |tris| % 3 != 0 {
        return false;
      }
      var nV := |pos| / 3;
      var v: seq<V3> := [];
      for i := 0 to nV
        invariant |v| == i && forall j :: 0 <= j < i ==> v[j] == V3(pos[3 * j] * scale, pos[3 * j + 1] * scale, pos[3 * j + 2] * scale)
      {
        v := v + [V3(pos[3 * i] * scale, pos[3 * i + 1] * scale, pos[3 * i + 2] * scale)];
      }
      var t: seq<nat> := [];
      for i := 0 to |tris|
        invariant t == tris[..i] && forall j :: 0 <= j < i ==> 0 <= tris[j] < nV
      {
        if tris[i] < 0 || tris[i] >= nV {
          FirstBadIs(tris, nV, i);
          m := Mesh(v, t);
          return false;
        }
        t := t + [tris[i]];
      }
      m := Mesh(v, t);
      var nT := NTri(m);
      var cent: seq<V3> := [];
      for f := 0 to nT
        invariant |cent| == f && m == Mesh(v, t)
      {
        var sum := Add(Add(Corner3(m, f, 0), Corner3(m, f, 1)), Corner3(m, f, 2));
        cent := cent + [V3(sum.x / 3.0, sum.y / 3.0, sum.z / 3.0)];
      }
      order := FirstN(nT);
      nodes := [];
      var root := BuildNode(0, nT, cent);
      PermutedWhole(FirstN(nT), order);
      ok := true;
    }

    /** A mesh without a triangle is not what any tree was built for: after a refusal
        there is nothing to query. */
    lemma StaleTree()
      requires |m.t| < 3
      ensures !Built()
    {
    }

    static lemma PermutedWhole(order: seq<nat>, order': seq<nat>)
      requires PermutedIn(order, order', 0, |order|)
      ensures multiset(order') == multiset(order)
    {
      assert order[0..|order|] == order && order'[0..|order|] == order';
    }

    /** closestInTri: h, or f's foot when that is nearer. */
    method ClosestInTri(f: nat, p: V3, h: Hit) returns (h': Hit)
      requires ValidMesh(m) && f < NTri(m)
      ensures h' == if NotNearer2(m, f, p, h.dist2) then h else HitOn(m, f, p)
    {
      var o := FootOn(m, f, p);
      if o.None? { return h; }
      var d2 := Dist2(p, o.value.point);
      if !(d2 < h.dist2) { return h; }
      return Hit(o.value.point, d2, f, o.value.region, o.value.sub);
    }

    /** A leaf's triangles, tried in turn. */
    method ScanLeaf(start: nat, count: nat, p: V3, h: Hit, found: bool, ghost maxDist2: real) returns (h': Hit, found': bool)
      requires ValidMesh(m) && Names(m, order) && start + count <= |order| && Reported(m, p, maxDist2, found, h)
      ensures h'.dist2 <= h.dist2 && Reported(m, p, maxDist2, found', h')
      ensures forall j :: start <= j < start + count ==> NotNearer2(m, order[j], p, h'.dist2)
    {
      hide NotNearer2, Reported, HitOn;
      h', found' := h, found;
      for k := start to start + count
        invariant h'.dist2 <= h.dist2 && Reported(m, p, maxDist2, found', h')
        invariant forall j :: start <= j < k ==> NotNearer2(m, order[j], p, h'.dist2)
      {
        var before := h'.dist2;
        ghost var was := h';
        h' := ClosestInTri(order[k], p, h');
        TriedOne(m, order, start, k, p, maxDist2, found', was, h');
        found' := found' || h'.dist2 < before;
      }
    }

    /** The nearest foot nearer than maxDist2, by pruned depth-first search. */
    method Closest(p: V3, maxDist2: real) returns (found: bool, h: Hit)
      requires nodes != [] ==> Built() && NTri(m) <= 0x1_0000_0000
      ensures nodes == [] ==> !found && h.dist2 == maxDist2
      ensures nodes != [] ==> Reported(m, p, maxDist2, found, h)
      ensures nodes != [] ==> forall f :: 0 <= f < NTri(m) ==> NotNearer2(m, f, p, h.dist2)
    {
      hide Subtree, BoxDist2, NotNearer2, Covered, HitOn, FootOn, NodeCount, Height, Work, Stacks, Names, ValidMesh, Reported;
      h := Hit(V3(0.0, 0.0, 0.0), maxDist2, 0, Face, 0);
      found := false;
      if nodes == [] { return; }
      var stack := new nat[64];
      stack[0] := 0;
      var sp := 1;
      ghost var rs := [Range(0, NTri(m))];
      StartSearch(m, nodes, order, p, h);
      assert stack[..1] == [0];
      while sp > 0
        invariant 0 <= sp == |rs| <= 64 && ValidMesh(m) && Names(m, order)
        invariant Stacks(m, nodes, order, stack[..sp], rs)
        invariant Covered(m, order, rs, p, h.dist2) && Reported(m, p, maxDist2, found, h)
        decreases Work(rs)
      {
        StacksTop(m, nodes, order, stack[..sp], rs);
        ghost var ids := stack[..sp];
        sp := sp - 1;
        var id := stack[sp];
        ghost var r, rest := rs[sp], rs[..sp];
        assert stack[..sp] == ids[..sp];
        Children(m, nodes, order, id, r);
        WorkPop(rs);
        var n := nodes[id];
        if !(BoxDist2(n.lo, n.hi, p) < h.dist2) {
          PopPruned(m, nodes, order, id, rs, p, h.dist2);
          rs := rest;
          continue;
        }
        if n.left == 0 {
          ghost var limit := h.dist2;
          h, found := ScanLeaf(n.start, n.count, p, h, found, maxDist2);
          CoveredNearer(m, order, rs, p, limit, h.dist2);
          PopSettled(m, order, rs, p, h.dist2);
          rs := rest;
          continue;
        }
        var dl := BoxDist2(nodes[n.left].lo, nodes[n.left].hi, p);
        var dr := BoxDist2(nodes[n.right].lo, nodes[n.right].hi, p);
        ghost var left, right := Range(r.start, r.count / 2), Range(r.start + r.count / 2, r.count - r.count / 2);
        if sp + 2 > 64 {
          break;
        }
        if dl < dr {
          PushBoth(m, nodes, order, ids, rs, n.right, n.left, right, left, p, h.dist2);
          stack[sp], stack[sp + 1] := n.right, n.left;
          rs := rest + [right] + [left];
        } else {
          PushBoth(m, nodes, order, ids, rs, n.left, n.right, left, right, p, h.dist2);
          stack[sp], stack[sp + 1] := n.left, n.right;
          rs := rest + [left] + [right];
        }
        sp := sp + 2;
        assert stack[..sp] == ids[..sp - 2] + [stack[sp - 2]] + [stack[sp - 1]];
      }
      Finished(m, order, p, h.dist2);
    }
  }

  /** The hit at triangle f's foot. */
  function HitOn(m: Mesh, f: nat, p: V3): Hit
    requires ValidMesh(m) && f < NTri(m) && FootOn(m, f, p).Some?
  {
    var o := FootOn(m, f, p).value;
    Hit(o.point, Dist2(p, o.point), f, o.region, o.sub)
  }

  /** A subtree waiting on the stack. */
  datatype Range = Range(start: nat, count: nat)

  predicate Below(r: Range, k: nat) {
    r.start <= k < r.start + r.count
  }

  ghost predicate Waiting(rs: seq<Range>, k: nat) {
    exists i :: 0 <= i < |rs| && Below(rs[i], k)
  }

  function Work(rs: seq<Range>): nat {
    if rs == [] then 0 else Work(rs[..|rs| - 1]) + NodeCount(rs[|rs| - 1].count)
  }

  lemma WorkPush(rs: seq<Range>, r: Range)
    ensures Work(rs + [r]) == Work(rs) + NodeCount(r.count)
  {
    assert (rs + [r])[..|rs|] == rs;
  }

  /** The bound on the tree's height: 4 * 2^30 triangles. */
  const MAX_HEIGHT: nat := 30

  /** Stack entry i is the subtree over rs[i], and low enough to leave room above. */
  ghost predicate Stacked(m: Mesh, nodes: seq<Node>, order: seq<nat>, id: nat, r: Range, i: nat)
    requires ValidMesh(m)
  {
    Subtree(m, nodes, order, id, r.start, r.count) && Height(r.count) + i <= MAX_HEIGHT
  }

  ghost predicate Stacks(m: Mesh, nodes: seq<Node>, order: seq<nat>, ids: seq<nat>, rs: seq<Range>)
    requires ValidMesh(m)
  {
    |ids| == |rs| && forall i :: 0 <= i < |ids| ==> Stacked(m, nodes, order, ids[i], rs[i], i)
  }

  /** The top entry, the stack below it, and room for two more entries in 64. */
  lemma StacksTop(m: Mesh, nodes: seq<Node>, order: seq<nat>, ids: seq<nat>, rs: seq<Range>)
    requires ValidMesh(m) && Stacks(m, nodes, order, ids, rs) && ids != []
    ensures |ids| == |rs| <= MAX_HEIGHT + 1
    ensures Stacked(m, nodes, order, ids[|ids| - 1], rs[|rs| - 1], |ids| - 1)
    ensures Stacks(m, nodes, order, ids[..|ids| - 1], rs[..|rs| - 1])
  {
    hide Subtree, Height;
    assert Stacked(m, nodes, order, ids[|ids| - 1], rs[|rs| - 1], |ids| - 1);
    assert Height(rs[|rs| - 1].count) >= 0;
  }

  lemma StacksPush(m: Mesh, nodes: seq<Node>, order: seq<nat>, ids: seq<nat>, rs: seq<Range>, id: nat, r: Range)
    requires ValidMesh(m) && Stacks(m, nodes, order, ids, rs) && Stacked(m, nodes, order, id, r, |ids|)
    ensures Stacks(m, nodes, order, ids + [id], rs + [r])
  {
    hide Subtree, Height;
  }

  /** Every place of order is settled or below a waiting subtree. */
  ghost predicate Covered(m: Mesh, order: seq<nat>, rs: seq<Range>, p: V3, d2: real)
    requires ValidMesh(m) && Names(m, order)
  {
    forall k :: 0 <= k < |order| ==> NotNearer2(m, order[k], p, d2) || Waiting(rs, k)
  }

  /** What closest reports: a hit on a triangle nearer than the limit, or the limit. */
  ghost predicate Reported(m: Mesh, p: V3, maxDist2: real, found: bool, h: Hit)
    requires ValidMesh(m)
  {
    if found then h.tri < NTri(m) && FootOn(m, h.tri, p).Some? && h == HitOn(m, h.tri, p) && h.dist2 < maxDist2
    else h.dist2 == maxDist2
  }

  lemma CoveredNearer(m: Mesh, order: seq<nat>, rs: seq<Range>, p: V3, d2: real, d2': real)
    requires ValidMesh(m) && Names(m, order) && Covered(m, order, rs, p, d2) && d2' <= d2
    ensures Covered(m, order, rs, p, d2')
  {
    hide FootOn, Dist2;
    forall k | 0 <= k < |order| && !Waiting(rs, k) ensures NotNearer2(m, order[k], p, d2') {
      assert NotNearer2(m, order[k], p, d2);
    }
  }

  lemma WaitingPop(rs: seq<Range>, k: nat)
    requires rs != [] && Waiting(rs, k)
    ensures Waiting(rs[..|rs| - 1], k) || Below(rs[|rs| - 1], k)
  {
    var i :| 0 <= i < |rs| && Below(rs[i], k);
    if i < |rs| - 1 { assert rs[..|rs| - 1][i] == rs[i]; }
  }

  lemma WaitingPush(rs: seq<Range>, r: Range, k: nat)
    requires Waiting(rs, k) || Below(r, k)
    ensures Waiting(rs + [r], k)
  {
    if Waiting(rs, k) {
      var i :| 0 <= i < |rs| && Below(rs[i], k);
      assert (rs + [r])[i] == rs[i];
    } else {
      assert (rs + [r])[|rs|] == r;
    }
  }

  /** A popped subtree that is settled. */
  lemma PopSettled(m: Mesh, order: seq<nat>, rs: seq<Range>, p: V3, d2: real)
    requires ValidMesh(m) && Names(m, order) && rs != [] && Covered(m, order, rs, p, d2)
    requires var r := rs[|rs| - 1]; forall k :: r.start <= k < r.start + r.count && k < |order| ==> NotNearer2(m, order[k], p, d2)
    ensures Covered(m, order, rs[..|rs| - 1], p, d2)
  {
    hide NotNearer2, Waiting;
    forall k | 0 <= k < |order| && !NotNearer2(m, order[k], p, d2) ensures Waiting(rs[..|rs| - 1], k) {
      WaitingPop(rs, k);
    }
  }

  lemma PopPruned(m: Mesh, nodes: seq<Node>, order: seq<nat>, id: nat, rs: seq<Range>, p: V3, d2: real)
    requires ValidMesh(m) && Names(m, order) && rs != [] && Covered(m, order, rs, p, d2) && id < |nodes|
    requires Subtree(m, nodes, order, id, rs[|rs| - 1].start, rs[|rs| - 1].count) && d2 <= BoxDist2(nodes[id].lo, nodes[id].hi, p)
    ensures Covered(m, order, rs[..|rs| - 1], p, d2)
  {
    hide NotNearer2, Covered, BoxDist2, TriInBox, Subtree;
    var r := rs[|rs| - 1];
    SubtreeInside(m, nodes, order, id, r.start, r.count);
    forall k | r.start <= k < r.start + r.count && k < |order| ensures NotNearer2(m, order[k], p, d2) {
      assert order[r.start..r.start + r.count][k - r.start] == order[k];
      PruneIsSafe(m, order[k], nodes[id].lo, nodes[id].hi, p, d2);
    }
    PopSettled(m, order, rs, p, d2);
  }

  /** A popped subtree replaced by its two children. */
  lemma PopSplit(m: Mesh, order: seq<nat>, rs: seq<Range>, a: Range, b: Range, p: V3, d2: real)
    requires ValidMesh(m) && Names(m, order) && rs != [] && Covered(m, order, rs, p, d2)
    requires forall k :: Below(rs[|rs| - 1], k) ==> Below(a, k) || Below(b, k)
    ensures Covered(m, order, rs[..|rs| - 1] + [a] + [b], p, d2)
  {
    hide NotNearer2, Waiting, Below;
    forall k | 0 <= k < |order| && !NotNearer2(m, order[k], p, d2)
      ensures Waiting(rs[..|rs| - 1] + [a] + [b], k)
    {
      WaitingPop(rs, k);
      if Waiting(rs[..|rs| - 1], k) || Below(a, k) { WaitingPush(rs[..|rs| - 1], a, k); }
      WaitingPush(rs[..|rs| - 1] + [a], b, k);
    }
  }

  lemma HeightSplit(count: nat)
    requires count > LEAF
    ensures Height(count / 2) < Height(count) && Height(count - count / 2) < Height(count)
  {
  }

  /** The children of a node that is not a leaf. */
  lemma Children(m: Mesh, nodes: seq<Node>, order: seq<nat>, id: nat, r: Range)
    requires ValidMesh(m) && Subtree(m, nodes, order, id, r.start, r.count)
    ensures id < |nodes| && r.start + r.count <= |order|
    ensures nodes[id].left == 0 <==> r.count <= LEAF
    ensures nodes[id].left == 0 ==> nodes[id].start == r.start && nodes[id].count == r.count
    ensures nodes[id].left != 0 ==>
              && nodes[id].left < |nodes| && nodes[id].right < |nodes|
              && Subtree(m, nodes, order, nodes[id].left, r.start, r.count / 2)
              && Subtree(m, nodes, order, nodes[id].right, r.start + r.count / 2, r.count - r.count / 2)
  {
    hide BoxHolds;
    if r.count > LEAF {
      SubtreeInside(m, nodes, order, id + 1, r.start, r.count / 2);
    }
  }

  lemma NamesAll(m: Mesh, order: seq<nat>)
    requires multiset(order) == multiset(FirstN(NTri(m)))
    ensures Names(m, order) && forall f :: 0 <= f < NTri(m) ==> f in order
  {
    SameMembers(order, FirstN(NTri(m)));
    forall k | 0 <= k < |order| ensures order[k] < NTri(m) { assert order[k] in FirstN(NTri(m)); }
    forall f | 0 <= f < NTri(m) ensures f in order { assert FirstN(NTri(m))[f] == f; }
  }

  lemma WorkPop(rs: seq<Range>)
    requires rs != []
    ensures Work(rs[..|rs| - 1]) < Work(rs)
  {
    hide NodeCount;
  }

  lemma StartSearch(m: Mesh, nodes: seq<Node>, order: seq<nat>, p: V3, h: Hit)
    requires ValidMesh(m) && multiset(order) == multiset(FirstN(NTri(m))) && |order| == NTri(m) <= 0x1_0000_0000
    requires Subtree(m, nodes, order, 0, 0, NTri(m))
    ensures Names(m, order) && Covered(m, order, [Range(0, NTri(m))], p, h.dist2)
    ensures Stacks(m, nodes, order, [0], [Range(0, NTri(m))]) && Reported(m, p, h.dist2, false, h)
  {
    hide Subtree, NotNearer2, Height;
    NamesAll(m, order);
    Pow2Of30();
    HeightBound(NTri(m), 30);
    var rs := [Range(0, NTri(m))];
    forall k | 0 <= k < |order| ensures Waiting(rs, k) { assert Below(rs[0], k); }
  }

  /** One triangle of a leaf tried. */
  lemma TriedOne(m: Mesh, order: seq<nat>, start: nat, k: nat, p: V3, maxDist2: real, found: bool, was: Hit, h: Hit)
    requires ValidMesh(m) && Names(m, order) && start <= k < |order|
    requires h == if NotNearer2(m, order[k], p, was.dist2) then was else HitOn(m, order[k], p)
    requires forall j :: start <= j < k ==> NotNearer2(m, order[j], p, was.dist2)
    ensures h.dist2 <= was.dist2 && forall j :: start <= j <= k ==> NotNearer2(m, order[j], p, h.dist2)
    ensures Reported(m, p, maxDist2, found, was) ==> Reported(m, p, maxDist2, found || h.dist2 < was.dist2, h)
  {
    hide FootOn, Dist2;
  }

  lemma PushBoth(m: Mesh, nodes: seq<Node>, order: seq<nat>, ids: seq<nat>, rs: seq<Range>, x: nat, y: nat, a: Range, b: Range, p: V3, d2: real)
    requires ValidMesh(m) && Names(m, order) && rs != [] && Covered(m, order, rs, p, d2)
    requires Stacks(m, nodes, order, ids, rs) && rs[|rs| - 1].count > LEAF && Halves(rs[|rs| - 1], a, b)
    requires Subtree(m, nodes, order, x, a.start, a.count) && Subtree(m, nodes, order, y, b.start, b.count)
    ensures |ids| == |rs|
    ensures Covered(m, order, rs[..|rs| - 1] + [a] + [b], p, d2)
    ensures Stacks(m, nodes, order, ids[..|ids| - 1] + [x] + [y], rs[..|rs| - 1] + [a] + [b])
    ensures Work(rs[..|rs| - 1] + [a] + [b]) < Work(rs)
  {
    assert |ids| == |rs|;
    hide Covered, NodeCount, Work, Height, Subtree, Stacks;
    PopSplit(m, order, rs, a, b, p, d2);
    WorkPush(rs[..|rs| - 1], rs[|rs| - 1]);
    assert rs[..|rs| - 1] + [rs[|rs| - 1]] == rs;
    WorkPush(rs[..|rs| - 1], a);
    WorkPush(rs[..|rs| - 1] + [a], b);
    NodeCountSplit(rs[|rs| - 1].count);
    HeightSplit(rs[|rs| - 1].count);
    StacksTop(m, nodes, order, ids, rs);
    StacksPush(m, nodes, order, ids[..|ids| - 1], rs[..|rs| - 1], x, a);
    StacksPush(m, nodes, order, ids[..|ids| - 1] + [x], rs[..|rs| - 1] + [a], y, b);
  }

  /** a and b are r's halves, in either order. */
  predicate Halves(r: Range, a: Range, b: Range) {
    var x, y := Range(r.start, r.count / 2), Range(r.start + r.count / 2, r.count - r.count / 2);
    (a == x && b == y) || (a == y && b == x)
  }

  lemma Finished(m: Mesh, order: seq<nat>, p: V3, d2: real)
    requires ValidMesh(m) && Names(m, order) && Covered(m, order, [], p, d2)
    requires multiset(order) == multiset(FirstN(NTri(m)))
    ensures forall f :: 0 <= f < NTri(m) ==> NotNearer2(m, f, p, d2)
  {
    hide NotNearer2;
    NamesAll(m, order);
    forall f | 0 <= f < NTri(m) ensures NotNearer2(m, f, p, d2) {
      assert f in order;
      var k :| 0 <= k < |order| && order[k] == f;
      assert !Waiting([], k);
    }
  }

  /** What closest reports is the brute-force answer: it finds a hit exactly when some
      triangle has a foot nearer than the limit, the hit is on the surface, and no
      point of a triangle closestInTri handles is nearer. */
  lemma ReportIsNearest(m: Mesh, p: V3, maxDist2: real, found: bool, h: Hit)
    requires ValidMesh(m) && Reported(m, p, maxDist2, found, h)
    requires forall f :: 0 <= f < NTri(m) ==> NotNearer2(m, f, p, h.dist2)
    ensures found <==> exists f :: 0 <= f < NTri(m) && !NotNearer2(m, f, p, maxDist2)
    ensures found ==> OnTriangle(m, h.tri, h.point) && h.dist2 == Dist2(p, h.point)
    ensures forall f, x :: 0 <= f < NTri(m) && FootOn(m, f, p).Some? && OnTriangle(m, f, x) ==> h.dist2 <= Dist2(p, x)
  {
    hide ClosestPoint, Dist2, InTriangle;
    if found {
      ClosestPointIsNearest(Corner3(m, h.tri, 0), Corner3(m, h.tri, 1), Corner3(m, h.tri, 2), p);
      assert !NotNearer2(m, h.tri, p, maxDist2);
    }
    forall f, x | 0 <= f < NTri(m) && FootOn(m, f, p).Some? && OnTriangle(m, f, x) ensures h.dist2 <= Dist2(p, x) {
      ClosestPointIsNearest(Corner3(m, f, 0), Corner3(m, f, 1), Corner3(m, f, 2), p);
      assert NotNearer2(m, f, p, h.dist2);
    }
  }
}
