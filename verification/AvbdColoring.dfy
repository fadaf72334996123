/** avbd_topology: the greedy vertex colouring. */
module AvbdColoring {

  // It separates the vertices that share a constraint, and a counting sort turns it into
  // colour batches.

  import opened AvbdTopology

  /** The constraints that couple vertices: springs (K = 2), triangles (K = 3) and
      bending stencils (K = 4), as flat index lists. */
  datatype Topology = Topology(nV: nat, springs: seq<nat>, tris: seq<nat>, bends: seq<nat>)

  predicate ValidTopology(t: Topology) {
    && |t.springs| % 2 == 0 && |t.tris| % 3 == 0 && |t.bends| % 4 == 0
    && InRange(t.springs, t.nV) && InRange(t.tris, t.nV) && InRange(t.bends, t.nV)
  }

  /** Constraint c of K vertices has a in role r and b in role q. */
  predicate CouplesIn(conIdx: seq<nat>, K: nat, c: nat, r: nat, q: nat, a: nat, b: nat) {
    && r < K && q < K && K * c + r < |conIdx| && K * c + q < |conIdx|
    && conIdx[K * c + r] == a && conIdx[K * c + q] == b
  }

  /** Some constraint below the n-th has both a and b. */
  ghost predicate Couples(conIdx: seq<nat>, K: nat, n: nat, a: nat, b: nat) {
    exists c: nat, r: nat, q: nat :: c < n && CouplesIn(conIdx, K, c, r, q, a, b)
  }

  /** Different vertices that some spring, triangle or bending stencil couples. */
  ghost predicate Neighbours(t: Topology, a: nat, b: nat) {
    && a != b
    && (|| Couples(t.springs, 2, |t.springs| / 2, a, b)
        || Couples(t.tris, 3, |t.tris| / 3, a, b)
        || Couples(t.bends, 4, |t.bends| / 4, a, b))
  }

  lemma CouplesBothWays(conIdx: seq<nat>, K: nat, n: nat, a: nat, b: nat)
    requires Couples(conIdx, K, n, a, b)
    ensures Couples(conIdx, K, n, b, a)
  {
    var c: nat, r: nat, q: nat :| c < n && CouplesIn(conIdx, K, c, r, q, a, b);
    assert CouplesIn(conIdx, K, c, q, r, b, a);
  }

  // --- the adjacency lists --------------------------------------------------------

  type Lists = seq<seq<nat>>

  predicate Linked(adj: Lists, a: nat, b: nat) {
    a < |adj| && b in adj[a]
  }

  predicate ListsOver(adj: Lists, nV: nat) {
    && |adj| == nV
    && forall a, i :: 0 <= a < nV && 0 <= i < |adj[a]| ==> adj[a][i] < nV
  }

  predicate Pair(x: nat, y: nat, a: nat, b: nat) {
    (x == a && y == b) || (x == b && y == a)
  }

  method Edge(adj: Lists, a: nat, b: nat) returns (adj': Lists)
    requires ListsOver(adj, |adj|) && a < |adj| && b < |adj|
    ensures ListsOver(adj', |adj|)
    ensures forall x: nat, y: nat :: Linked(adj', x, y) <==> Linked(adj, x, y) || (x != y && Pair(x, y, a, b))
  {
    if a == b { return adj; }
    adj' := adj[a := adj[a] + [b]];
    adj' := adj'[b := adj'[b] + [a]];
  }

  ghost predicate LinksCoupled(adj: Lists, t: Topology, nSpring: nat, nTri: nat, nBend: nat) {
    && ListsOver(adj, t.nV)
    && forall x: nat, y: nat :: Linked(adj, x, y) <==>
         x != y && (Couples(t.springs, 2, nSpring, x, y) || Couples(t.tris, 3, nTri, x, y) || Couples(t.bends, 4, nBend, x, y))
  }

  lemma NextSpring(p: seq<nat>, c: nat, x: nat, y: nat)
    requires 2 * c + 2 <= |p| && x != y
    ensures Couples(p, 2, c + 1, x, y) <==> Couples(p, 2, c, x, y) || Pair(x, y, p[2 * c], p[2 * c + 1])
  {
    if Couples(p, 2, c + 1, x, y) {
      var d: nat, r: nat, q: nat :| d < c + 1 && CouplesIn(p, 2, d, r, q, x, y);
    }
    if Couples(p, 2, c, x, y) {
      var d: nat, r: nat, q: nat :| d < c && CouplesIn(p, 2, d, r, q, x, y);
    }
    if x == p[2 * c] && y == p[2 * c + 1] { assert CouplesIn(p, 2, c, 0, 1, x, y); }
    if y == p[2 * c] && x == p[2 * c + 1] { assert CouplesIn(p, 2, c, 1, 0, x, y); }
  }

  predicate TriPair(x: nat, y: nat, p: seq<nat>, c: nat)
    requires 3 * c + 3 <= |p|
  {
    Pair(x, y, p[3 * c], p[3 * c + 1]) || Pair(x, y, p[3 * c], p[3 * c + 2]) || Pair(x, y, p[3 * c + 1], p[3 * c + 2])
  }

  lemma NextTri(p: seq<nat>, c: nat, x: nat, y: nat)
    requires 3 * c + 3 <= |p| && x != y
    ensures Couples(p, 3, c + 1, x, y) <==> Couples(p, 3, c, x, y) || TriPair(x, y, p, c)
  {
    if Couples(p, 3, c + 1, x, y) {
      var d: nat, r: nat, q: nat :| d < c + 1 && CouplesIn(p, 3, d, r, q, x, y);
    }
    if Couples(p, 3, c, x, y) {
      var d: nat, r: nat, q: nat :| d < c && CouplesIn(p, 3, d, r, q, x, y);
    }
    if TriPair(x, y, p, c) {
      var r: nat, q: nat :| r < 3 && q < 3 && p[3 * c + r] == x && p[3 * c + q] == y;
      assert CouplesIn(p, 3, c, r, q, x, y);
    }
  }

  predicate BendPair(x: nat, y: nat, p: seq<nat>, c: nat)
    requires 4 * c + 4 <= |p|
  {
    || Pair(x, y, p[4 * c], p[4 * c + 1]) || Pair(x, y, p[4 * c], p[4 * c + 2]) || Pair(x, y, p[4 * c], p[4 * c + 3])
    || Pair(x, y, p[4 * c + 1], p[4 * c + 2]) || Pair(x, y, p[4 * c + 1], p[4 * c + 3]) || Pair(x, y, p[4 * c + 2], p[4 * c + 3])
  }

  lemma NextBend(p: seq<nat>, c: nat, x: nat, y: nat)
    requires 4 * c + 4 <= |p| && x != y
    ensures Couples(p, 4, c + 1, x, y) <==> Couples(p, 4, c, x, y) || BendPair(x, y, p, c)
  {
    if Couples(p, 4, c + 1, x, y) {
      var d: nat, r: nat, q: nat :| d < c + 1 && CouplesIn(p, 4, d, r, q, x, y);
    }
    if Couples(p, 4, c, x, y) {
      var d: nat, r: nat, q: nat :| d < c && CouplesIn(p, 4, d, r, q, x, y);
    }
    if BendPair(x, y, p, c) {
      var r: nat, q: nat :| r < 4 && q < 4 && p[4 * c + r] == x && p[4 * c + q] == y;
      assert CouplesIn(p, 4, c, r, q, x, y);
    }
  }

  /** The adjacency lists hold exactly the neighbours. */
  method Adjacency(t: Topology) returns (adj: Lists)
    requires ValidTopology(t)
    ensures LinksCoupled(adj, t, |t.springs| / 2, |t.tris| / 3, |t.bends| / 4)
    ensures ListsOver(adj, t.nV) && forall v: nat :: !Linked(adj, v, v)
  {
    hide Couples, Pair, Linked, TriPair, BendPair;
    adj := seq(t.nV, i => []);
    NoLinks(adj, t);
    for c := 0 to |t.springs| / 2
      invariant LinksCoupled(adj, t, c, 0, 0)
    {
      ghost var before := adj;
      adj := Edge(adj, t.springs[2 * c], t.springs[2 * c + 1]);
      SpringLinks(before, adj, t, c);
    }
    for c := 0 to |t.tris| / 3
      invariant LinksCoupled(adj, t, |t.springs| / 2, c, 0)
    {
      ghost var before := adj;
      adj := TriEdges(adj, t.tris, c);
      TriLinks(before, adj, t, |t.springs| / 2, c);
    }
    for c := 0 to |t.bends| / 4
      invariant LinksCoupled(adj, t, |t.springs| / 2, |t.tris| / 3, c)
    {
      ghost var before := adj;
      adj := BendEdges(adj, t.bends, c);
      BendLinks(before, adj, t, |t.springs| / 2, |t.tris| / 3, c);
    }
  }

  lemma NoLinks(adj: Lists, t: Topology)
    requires ListsOver(adj, t.nV) && forall a :: 0 <= a < t.nV ==> adj[a] == []
    ensures LinksCoupled(adj, t, 0, 0, 0)
  {
  }

  method TriEdges(adj: Lists, p: seq<nat>, c: nat) returns (adj': Lists)
    requires ListsOver(adj, |adj|) && InRange(p, |adj|) && 3 * c + 3 <= |p|
    ensures ListsOver(adj', |adj|)
    ensures forall x: nat, y: nat :: Linked(adj', x, y) <==> Linked(adj, x, y) || (x != y && TriPair(x, y, p, c))
  {
    hide Linked, Pair;
    var i0, i1, i2 := p[3 * c], p[3 * c + 1], p[3 * c + 2];
    adj' := Edge(adj, i0, i1);
    adj' := Edge(adj', i0, i2);
    adj' := Edge(adj', i1, i2);
  }

  method BendEdges(adj: Lists, p: seq<nat>, c: nat) returns (adj': Lists)
    requires ListsOver(adj, |adj|) && InRange(p, |adj|) && 4 * c + 4 <= |p|
    ensures ListsOver(adj', |adj|)
    ensures forall x: nat, y: nat :: Linked(adj', x, y) <==> Linked(adj, x, y) || (x != y && BendPair(x, y, p, c))
  {
    hide Linked, Pair;
    var i0, i1, i2, i3 := p[4 * c], p[4 * c + 1], p[4 * c + 2], p[4 * c + 3];
    adj' := Edge(adj, i0, i1);
    adj' := Edge(adj', i0, i2);
    adj' := Edge(adj', i0, i3);
    adj' := Edge(adj', i1, i2);
    adj' := Edge(adj', i1, i3);
    adj' := Edge(adj', i2, i3);
  }

  lemma SpringLinks(adj: Lists, adj': Lists, t: Topology, c: nat)
    requires 2 * c + 2 <= |t.springs| && LinksCoupled(adj, t, c, 0, 0) && ListsOver(adj', t.nV)
    requires forall x: nat, y: nat :: Linked(adj', x, y) <==>
               Linked(adj, x, y) || (x != y && Pair(x, y, t.springs[2 * c], t.springs[2 * c + 1]))
    ensures LinksCoupled(adj', t, c + 1, 0, 0)
  {
    hide Couples, Linked, Pair;
    var n := c + 1;
    forall x: nat, y: nat | x != y
      ensures Couples(t.springs, 2, n, x, y) <==>
                Couples(t.springs, 2, c, x, y) || Pair(x, y, t.springs[2 * c], t.springs[2 * c + 1])
    {
      NextSpring(t.springs, c, x, y);
    }
  }

  lemma TriLinks(adj: Lists, adj': Lists, t: Topology, nS: nat, c: nat)
    requires 3 * c + 3 <= |t.tris| && LinksCoupled(adj, t, nS, c, 0) && ListsOver(adj', t.nV)
    requires forall x: nat, y: nat :: Linked(adj', x, y) <==> Linked(adj, x, y) || (x != y && TriPair(x, y, t.tris, c))
    ensures LinksCoupled(adj', t, nS, c + 1, 0)
  {
    hide Couples, Linked, TriPair;
    var n := c + 1;
    forall x: nat, y: nat | x != y
      ensures Couples(t.tris, 3, n, x, y) <==> Couples(t.tris, 3, c, x, y) || TriPair(x, y, t.tris, c)
    {
      NextTri(t.tris, c, x, y);
    }
  }

  lemma BendLinks(adj: Lists, adj': Lists, t: Topology, nS: nat, nT: nat, c: nat)
    requires 4 * c + 4 <= |t.bends| && LinksCoupled(adj, t, nS, nT, c) && ListsOver(adj', t.nV)
    requires forall x: nat, y: nat :: Linked(adj', x, y) <==> Linked(adj, x, y) || (x != y && BendPair(x, y, t.bends, c))
    ensures LinksCoupled(adj', t, nS, nT, c + 1)
  {
    hide Couples, Linked, BendPair;
    var n := c + 1;
    forall x: nat, y: nat | x != y
      ensures Couples(t.bends, 4, n, x, y) <==> Couples(t.bends, 4, c, x, y) || BendPair(x, y, t.bends, c)
    {
      NextBend(t.bends, c, x, y);
    }
  }

  // --- choosing colours -------------------------------------------------------------

  function CountTrue(s: seq<bool>): (n: nat)
    ensures n <= |s|
  {
    if s == [] then 0 else CountTrue(s[..|s| - 1]) + (if s[|s| - 1] then 1 else 0)
  }

  lemma {:induction false} SetOne(s: seq<bool>, k: nat)
    requires k < |s|
    ensures CountTrue(s[k := true]) <= CountTrue(s) + 1
  {
    var n := |s| - 1;
    if k == n {
      assert s[k := true][..n] == s[..n];
    } else {
      assert s[k := true][..n] == s[..n][k := true];
      SetOne(s[..n], k);
    }
  }

  lemma {:induction false} NoneTrue(s: seq<bool>)
    requires forall k :: 0 <= k < |s| ==> !s[k]
    ensures CountTrue(s) == 0
  {
    if s != [] { NoneTrue(s[..|s| - 1]); }
  }

  lemma {:induction false} AllTrue(s: seq<bool>)
    requires forall k :: 0 <= k < |s| ==> s[k]
    ensures CountTrue(s) == |s|
  {
    if s != [] { AllTrue(s[..|s| - 1]); }
  }

  /** No neighbour coloured before v has colour c. */
  predicate FreeFor(adj: Lists, color: seq<int>, v: nat, c: int)
    requires ListsOver(adj, |color|) && v < |adj|
  {
    forall i :: 0 <= i < |adj[v]| && adj[v][i] < v ==> color[adj[v][i]] != c
  }

  /** Colour v is the least free one. */
  predicate LeastFree(adj: Lists, color: seq<int>, v: nat)
    requires ListsOver(adj, |color|) && v < |adj|
  {
    && 0 <= color[v] <= |adj[v]| && FreeFor(adj, color, v, color[v])
    && forall c :: 0 <= c < color[v] ==> !FreeFor(adj, color, v, c)
  }

  /** One of the row's first j vertices has colour k. */
  predicate Taken(row: seq<nat>, color: seq<int>, j: nat, k: int) {
    exists i :: 0 <= i < j && i < |row| && row[i] < |color| && color[row[i]] == k
  }

  /** The least colour none of the row's vertices has; a row of d vertices leaves one
      of d + 1 colours free. */
  method PickColor(row: seq<nat>, color: seq<int>) returns (c: nat)
    requires forall i :: 0 <= i < |row| ==> row[i] < |color|
    ensures c <= |row| && !Taken(row, color, |row|, c) && forall k :: 0 <= k < c ==> Taken(row, color, |row|, k)
  {
    var used := seq(|row| + 1, i => false);
    NoneTrue(used);
    for j := 0 to |row|
      invariant |used| == |row| + 1 && CountTrue(used) <= j
      invariant forall k :: 0 <= k < |used| ==> (used[k] <==> Taken(row, color, j, k))
    {
      var cn := color[row[j]];
      if 0 <= cn < |used| {
        SetOne(used, cn);
        used := used[cn := true];
      }
    }
    c := 0;
    while c < |used| && used[c]
      invariant c <= |used| && forall k :: 0 <= k < c ==> used[k]
    {
      c := c + 1;
    }
    if c == |used| { AllTrue(used); }
  }

  lemma LeastFreeKept(adj: Lists, color: seq<int>, u: nat, v: nat, x: int)
    requires ListsOver(adj, |color|) && u < v < |adj| && LeastFree(adj, color, u)
    ensures LeastFree(adj, color[v := x], u)
  {
    var color' := color[v := x];
    forall c: int ensures FreeFor(adj, color', u, c) == FreeFor(adj, color, u, c) {
    }
  }

  lemma LeastFreeSet(adj: Lists, color: seq<int>, v: nat, c: nat)
    requires ListsOver(adj, |color|) && v < |adj| && !Linked(adj, v, v)
    requires forall u :: v <= u < |color| ==> color[u] == -1
    requires c <= |adj[v]| && !Taken(adj[v], color, |adj[v]|, c)
    requires forall k :: 0 <= k < c ==> Taken(adj[v], color, |adj[v]|, k)
    ensures LeastFree(adj, color[v := c], v)
  {
    var color' := color[v := c];
    forall k | 0 <= k < c ensures !FreeFor(adj, color', v, k) {
      assert Taken(adj[v], color, |adj[v]|, k);
      var i :| 0 <= i < |adj[v]| && color[adj[v][i]] == k;
      assert adj[v][i] < v;
    }
  }

  method ColorVertices(adj: Lists) returns (color: seq<int>)
    requires ListsOver(adj, |adj|) && forall v: nat :: !Linked(adj, v, v)
    ensures |color| == |adj| && forall v :: 0 <= v < |adj| ==> color[v] >= 0 && LeastFree(adj, color, v)
  {
    hide LeastFree, FreeFor, Linked, Taken;
    color := seq(|adj|, i => -1);
    for v := 0 to |adj|
      invariant |color| == |adj| && forall u :: 0 <= u < v ==> color[u] >= 0 && LeastFree(adj, color, u)
      invariant forall u :: v <= u < |color| ==> color[u] == -1
    {
      var c := PickColor(adj[v], color);
      LeastFreeSet(adj, color, v, c);
      ghost var before := color;
      color := color[v := c];
      forall u | 0 <= u < v ensures LeastFree(adj, color, u) {
        LeastFreeKept(adj, before, u, v, c);
      }
    }
  }

  // --- colour batches ----------------------------------------------------------------

  method NumColors(color: seq<nat>) returns (nc: nat)
    ensures nc > 0 && forall v :: 0 <= v < |color| ==> color[v] < nc
    ensures nc == 1 || exists v :: 0 <= v < |color| && color[v] + 1 == nc
  {
    nc := 0;
    for v := 0 to |color|
      invariant forall u :: 0 <= u < v ==> color[u] < nc
      invariant nc == 0 || exists u :: 0 <= u < v && color[u] + 1 == nc
    {
      if color[v] + 1 > nc { nc := color[v] + 1; }
    }
    if nc == 0 { nc := 1; }
  }

  /** perm holds the vertices bucket by bucket of their colour, offsets the buckets. */
  ghost predicate Sorted(color: seq<nat>, nc: nat, perm: seq<nat>, offsets: seq<nat>) {
    && |perm| == |color| && |offsets| == nc + 1
    && (forall c :: 0 <= c <= nc ==> offsets[c] == Bucket(color, c))
    && Filled(perm, Zeros(|color|), 1, color, |color|)
  }

  function Zeros(n: nat): (z: seq<nat>)
    ensures |z| == n && forall i :: 0 <= i < n ==> z[i] == 0
  {
    if n == 0 then [] else Zeros(n - 1) + [0]
  }

  method SortByColor(color: seq<nat>, nc: nat) returns (perm: seq<nat>, offsets: seq<nat>)
    requires InRange(color, nc)
    ensures Sorted(color, nc, perm, offsets)
  {
    hide Places, Bucket, Filled, Counted, Zeros;
    var nV := |color|;
    var counts := CountKeys(nc, color);
    offsets := Offsets(nc, color, counts);
    var cursor: seq<nat> := seq(nc, i => 0);
    perm := seq(nV, i => 0);
    ghost var zeros := Zeros(nV);
    CountNone(color, cursor);
    FillNone(perm, zeros, 1, color);
    for v := 0 to nV
      invariant |cursor| == nc && |perm| == nV && Counted(color, cursor, v)
      invariant Filled(perm, zeros, 1, color, v)
    {
      var c := color[v];
      var at := offsets[c] + cursor[c];
      CountedAt(color, cursor, v, c);
      SlotFits(color, v, nc);
      FillOne(perm, zeros, 1, color, v, v, 0);
      assert zeros[at := 0] == zeros;
      CountOne(color, cursor, v);
      perm := perm[at := v];
      cursor := cursor[c := cursor[c] + 1];
    }
  }

  /** The entries of bucket c are the places of colour c. */
  lemma SortedAt(color: seq<nat>, nc: nat, perm: seq<nat>, offsets: seq<nat>, c: nat, k: nat)
    requires Sorted(color, nc, perm, offsets) && InRange(color, nc) && c < nc && k < |Places(color, c, |color|)|
    ensures Bucket(color, c) + k < |perm| && perm[Bucket(color, c) + k] == Places(color, c, |color|)[k]
  {
    hide Places, Bucket;
    assert BucketFilled(perm, Zeros(|color|), 1, color, |color|, c);
    assert EntryIs(perm, Zeros(|color|), 1, color, c, |color|, k);
  }

  lemma {:induction false} FindBucket(color: seq<nat>, nc: nat, i: nat) returns (c: nat)
    requires i < Bucket(color, nc)
    ensures c < nc && Bucket(color, c) <= i < Bucket(color, c) + |Places(color, c, |color|)|
  {
    hide Places;
    if i < Bucket(color, nc - 1) {
      c := FindBucket(color, nc - 1, i);
    } else {
      c := nc - 1;
    }
  }

  /** Entry i sits in the bucket of its own colour. */
  lemma EntryColor(color: seq<nat>, nc: nat, perm: seq<nat>, offsets: seq<nat>, i: nat)
    requires Sorted(color, nc, perm, offsets) && InRange(color, nc) && i < |perm|
    ensures perm[i] < |color|
    ensures var c := color[perm[i]];
            && c < nc && Bucket(color, c) <= i < Bucket(color, c) + |Places(color, c, |color|)|
            && perm[i] == Places(color, c, |color|)[i - Bucket(color, c)]
  {
    hide Places, Bucket, Filled;
    BucketTotal(color, nc);
    var c := FindBucket(color, nc, i);
    SortedAt(color, nc, perm, offsets, c, i - Bucket(color, c));
  }

  /** The batches list every vertex exactly once, and no batch holds two neighbours. */
  ghost predicate Batches(t: Topology, perm: seq<nat>, offsets: seq<nat>) {
    && Tiles(offsets, |perm|) && Distinct(perm, t.nV)
    && (forall v :: 0 <= v < t.nV ==> v in perm)
    && BatchesApart(t, perm, offsets)
  }

  predicate Tiles(offsets: seq<nat>, n: nat) {
    && |offsets| >= 2 && offsets[0] == 0 && offsets[|offsets| - 1] == n
    && forall c, d :: 0 <= c <= d < |offsets| ==> offsets[c] <= offsets[d]
  }

  predicate Distinct(perm: seq<nat>, nV: nat) {
    && (forall i :: 0 <= i < |perm| ==> perm[i] < nV)
    && forall i, j :: 0 <= i < j < |perm| ==> perm[i] != perm[j]
  }

  ghost predicate BatchesApart(t: Topology, perm: seq<nat>, offsets: seq<nat>)
    requires Tiles(offsets, |perm|)
  {
    forall c, d, i, j :: 0 <= c < d < |offsets| && d == c + 1 && offsets[c] <= i < offsets[d] && offsets[c] <= j < offsets[d] ==>
                           !Neighbours(t, perm[i], perm[j])
  }

  ghost predicate Proper(t: Topology, color: seq<nat>) {
    && |color| == t.nV
    && forall a, b :: 0 <= a < t.nV && 0 <= b < t.nV && Neighbours(t, a, b) ==> color[a] != color[b]
  }

  lemma SortedDistinct(color: seq<nat>, nc: nat, perm: seq<nat>, offsets: seq<nat>)
    requires Sorted(color, nc, perm, offsets) && InRange(color, nc)
    ensures Distinct(perm, |color|) && forall v :: 0 <= v < |color| ==> v in perm
  {
    hide Places, Bucket, Filled, Sorted;
    SortedSizes(color, nc, perm, offsets);
    forall i | 0 <= i < |perm| ensures perm[i] < |color| {
      EntryColor(color, nc, perm, offsets, i);
    }
    forall i, j | 0 <= i < j < |perm| ensures perm[i] != perm[j] {
      EntryColor(color, nc, perm, offsets, i);
      EntryColor(color, nc, perm, offsets, j);
      PlacesExact(color, color[perm[i]], |color|);
    }
    forall v | 0 <= v < |color| ensures v in perm {
      PlacesExact(color, color[v], |color|);
      var k :| 0 <= k < |Places(color, color[v], |color|)| && Places(color, color[v], |color|)[k] == v;
      SortedAt(color, nc, perm, offsets, color[v], k);
    }
  }

  lemma SortedSizes(color: seq<nat>, nc: nat, perm: seq<nat>, offsets: seq<nat>)
    requires Sorted(color, nc, perm, offsets)
    ensures |perm| == |color| && |offsets| == nc + 1
    ensures forall c :: 0 <= c <= nc ==> offsets[c] == Bucket(color, c)
  {
    hide Places, Bucket, Filled;
  }

  lemma SortedTiles(color: seq<nat>, nc: nat, perm: seq<nat>, offsets: seq<nat>)
    requires Sorted(color, nc, perm, offsets) && InRange(color, nc) && nc > 0
    ensures Tiles(offsets, |perm|)
  {
    hide Places, Filled;
    BucketTotal(color, nc);
    forall c, d | 0 <= c <= d < |offsets| ensures offsets[c] <= offsets[d] {
      if c < d { BucketsApart(color, c, d); }
    }
  }

  lemma SortedApart(t: Topology, color: seq<nat>, nc: nat, perm: seq<nat>, offsets: seq<nat>)
    requires Sorted(color, nc, perm, offsets) && InRange(color, nc) && nc > 0 && Proper(t, color)
    ensures Tiles(offsets, |perm|) && BatchesApart(t, perm, offsets)
  {
    hide Places, Bucket, Filled, Sorted, Neighbours;
    SortedTiles(color, nc, perm, offsets);
    SortedSizes(color, nc, perm, offsets);
    forall c, d, i, j | 0 <= c < d < |offsets| && d == c + 1 && offsets[c] <= i < offsets[d] && offsets[c] <= j < offsets[d]
      ensures !Neighbours(t, perm[i], perm[j])
    {
      SameBucket(color, nc, perm, offsets, c, i);
      SameBucket(color, nc, perm, offsets, c, j);
    }
  }

  lemma SameBucket(color: seq<nat>, nc: nat, perm: seq<nat>, offsets: seq<nat>, c: nat, i: nat)
    requires Sorted(color, nc, perm, offsets) && InRange(color, nc) && c < nc
    requires i < |perm| && Bucket(color, c) <= i < Bucket(color, c + 1)
    ensures perm[i] < |color| && color[perm[i]] == c
  {
    hide Places, Filled, Sorted;
    EntryColor(color, nc, perm, offsets, i);
    var d := color[perm[i]];
    if d < c { BucketsApart(color, d, c); }
    if c < d { BucketsApart(color, c, d); }
  }

  /** greedy_coloring: least-free colours make batches without neighbours. */
  lemma LeastFreeIsProper(t: Topology, adj: Lists, color: seq<nat>)
    requires LinksCoupled(adj, t, |t.springs| / 2, |t.tris| / 3, |t.bends| / 4) && |color| == |adj|
    requires forall v :: 0 <= v < |adj| ==> LeastFree(adj, color, v)
    ensures Proper(t, color)
  {
    hide Couples;
    forall a, b | 0 <= a < t.nV && 0 <= b < t.nV && Neighbours(t, a, b)
      ensures color[a] != color[b]
    {
      NeighboursBothWays(t, a, b);
      var u, v := if a < b then a else b, if a < b then b else a;
      assert Linked(adj, v, u);
      assert LeastFree(adj, color, v);
    }
  }

  lemma NeighboursBothWays(t: Topology, a: nat, b: nat)
    requires Neighbours(t, a, b)
    ensures Neighbours(t, b, a)
  {
    hide Couples;
    if Couples(t.springs, 2, |t.springs| / 2, a, b) { CouplesBothWays(t.springs, 2, |t.springs| / 2, a, b); }
    if Couples(t.tris, 3, |t.tris| / 3, a, b) { CouplesBothWays(t.tris, 3, |t.tris| / 3, a, b); }
    if Couples(t.bends, 4, |t.bends| / 4, a, b) { CouplesBothWays(t.bends, 4, |t.bends| / 4, a, b); }
  }

  /** Colour by colour, the vertices sorted by their least free colour: batches that
      tile the vertices, hold each once, and never two neighbours. */
  method GreedyColoring(t: Topology) returns (perm: seq<nat>, offsets: seq<nat>, ghost adj: Lists, ghost color: seq<nat>)
    requires ValidTopology(t)
    ensures Batches(t, perm, offsets)
    ensures LinksCoupled(adj, t, |t.springs| / 2, |t.tris| / 3, |t.bends| / 4)
    ensures |color| == |adj| && forall v :: 0 <= v < |color| ==> LeastFree(adj, color, v)
    ensures |offsets| >= 2 && Sorted(color, |offsets| - 1, perm, offsets)
    ensures |offsets| == 2 || exists v :: 0 <= v < |color| && color[v] + 2 == |offsets|
  {
    hide LinksCoupled, LeastFree, Filled, Proper, Batches;
    var lists := Adjacency(t);
    var signed := ColorVertices(lists);
    var colors: seq<nat> := signed;
    adj, color := lists, colors;
    LeastFreeIsProper(t, adj, color);
    var nc := NumColors(colors);
    perm, offsets := SortByColor(colors, nc);
    MakesBatches(t, color, nc, perm, offsets);
  }

  lemma MakesBatches(t: Topology, color: seq<nat>, nc: nat, perm: seq<nat>, offsets: seq<nat>)
    requires Sorted(color, nc, perm, offsets) && InRange(color, nc) && nc > 0 && Proper(t, color)
    ensures Batches(t, perm, offsets)
  {
    hide Sorted, Neighbours;
    SortedDistinct(color, nc, perm, offsets);
    SortedApart(t, color, nc, perm, offsets);
  }
}
