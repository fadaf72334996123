/** curvenet topology(): the edge count, the boundary loops and the connected
    components of a triangle list. */
module MeshTopology {
  import opened BoundaryLoops
  import opened UnionFind

  /** v is a corner of some triangle. */
  predicate Used(uses: seq<Edge>, v: nat) {
    exists i :: 0 <= i < |uses| && uses[i].0 == v
  }

  /** The roots of the components that have a triangle. */
  ghost function Roots(g: Forest, uses: seq<Edge>, n: nat): set<nat>
    requires n <= |g.rep|
  {
    set r | 0 <= r < n && Used(uses, r) && g.rep[r] == r
  }

  lemma {:induction false} UsesWithin(f: seq<nat>, n: nat, nv: nat)
    requires 3 * n <= |f| && forall i :: 0 <= i < |f| ==> f[i] < nv
    ensures EdgesWithin(Uses(f, n), nv)
  {
    if n != 0 { UsesWithin(f, n - 1, nv); }
  }

  /** Every edge's second end is some edge's first. */
  lemma {:induction false} EndsAreUsed(f: seq<nat>, n: nat, i: nat)
    requires 3 * n <= |f| && i < |Uses(f, n)|
    ensures Used(Uses(f, n), Uses(f, n)[i].1)
  {
    var t := 3 * (n - 1);
    var before := Uses(f, n - 1);
    var tri: seq<Edge> := [(f[t], f[t + 1]), (f[t + 1], f[t + 2]), (f[t + 2], f[t])];
    assert Uses(f, n) == before + tri;
    if i < |before| {
      EndsAreUsed(f, n - 1, i);
      var j :| 0 <= j < |before| && before[j].0 == before[i].1;
      assert Uses(f, n)[j] == before[j];
    } else {
      var j := |before| + (i - |before| + 1) % 3;
      assert Uses(f, n)[j].0 == tri[i - |before|].1;
    }
  }

  /** A used vertex's root is used. */
  lemma {:induction false} RootIsUsed(g: Forest, f: seq<nat>, x: nat)
    requires var uses := Uses(f, |f| / 3); Components(g, uses) && x < |g.rep| && Used(uses, x)
    requires g.rep[x] < |g.rep| && g.rep[g.rep[x]] == g.rep[x]
    ensures Used(Uses(f, |f| / 3), g.rep[x])
  {
    hide Uses;
    var uses, r := Uses(f, |f| / 3), g.rep[x];
    if x != r {
      assert Together(g, x, r);
      var p :| IsPath(uses, p, x, r);
      assert Adjacent(uses, p[|p| - 2], p[|p| - 1]);
      if (p[|p| - 2], r) in uses {
        var i :| 0 <= i < |uses| && uses[i] == (p[|p| - 2], r);
        EndsAreUsed(f, |f| / 3, i);
      }
    }
  }

  /** Roots picks exactly one vertex of every component that has a triangle. */
  lemma RootsCountComponents(g: Forest, f: seq<nat>)
    requires var uses := Uses(f, |f| / 3); Components(g, uses)
    requires forall x :: 0 <= x < |g.rep| ==> g.rep[x] < |g.rep| && g.rep[g.rep[x]] == g.rep[x]
    ensures var uses := Uses(f, |f| / 3);
            forall x :: 0 <= x < |g.rep| && Used(uses, x) ==> exists r :: r in Roots(g, uses, |g.rep|) && Connected(uses, x, r)
    ensures var uses := Uses(f, |f| / 3);
            forall r, s :: r in Roots(g, uses, |g.rep|) && s in Roots(g, uses, |g.rep|) && Connected(uses, r, s) ==> r == s
  {
    hide Uses, Used, Connected;
    var uses := Uses(f, |f| / 3);
    forall x | 0 <= x < |g.rep| && Used(uses, x) ensures exists r :: r in Roots(g, uses, |g.rep|) && Connected(uses, x, r) {
      RootIsUsed(g, f, x);
      assert Together(g, x, g.rep[x]);
      assert g.rep[x] in Roots(g, uses, |g.rep|);
    }
    forall r, s | r in Roots(g, uses, |g.rep|) && s in Roots(g, uses, |g.rep|) && Connected(uses, r, s) ensures r == s {
      assert Together(g, r, s);
    }
  }

  /** One vertex of every component that has a triangle. */
  ghost predicate OneEach(nv: nat, uses: seq<Edge>, rs: set<nat>) {
    && (forall r :: r in rs ==> r < nv && Used(uses, r))
    && (forall x: nat :: x < nv && Used(uses, x) ==> exists r :: r in rs && Connected(uses, x, r))
    && (forall r, s :: r in rs && s in rs && Connected(uses, r, s) ==> r == s)
  }

  /** n components have a triangle. */
  ghost predicate CountsComponents(nv: nat, uses: seq<Edge>, n: nat) {
    exists rs: set<nat> :: |rs| == n && OneEach(nv, uses, rs)
  }

  lemma RootsAreOneEach(g: Forest, f: seq<nat>)
    requires Components(g, Uses(f, |f| / 3)) && RootsFixed(g)
    ensures CountsComponents(|g.rep|, Uses(f, |f| / 3), |Roots(g, Uses(f, |f| / 3), |g.rep|)|)
  {
    hide Uses, Used, Connected, Components;
    RootsCountComponents(g, f);
    assert OneEach(|g.rep|, Uses(f, |f| / 3), Roots(g, Uses(f, |f| / 3), |g.rep|));
  }

  ghost predicate RootsFixed(g: Forest) {
    forall x :: 0 <= x < |g.rep| ==> g.rep[x] < |g.rep| && g.rep[g.rep[x]] == g.rep[x]
  }

  lemma ForestRootsFixed(parent: seq<nat>, g: Forest)
    requires IsForest(parent, g)
    ensures RootsFixed(g)
  {
    forall x | 0 <= x < |g.rep| ensures g.rep[x] < |g.rep| && g.rep[g.rep[x]] == g.rep[x] {
      assert Linked(parent, g, x);
      assert Linked(parent, g, g.rep[x]);
    }
  }

  /** topology()'s union: the larger root comes under the smaller. */
  method JoinMin(parent: array<nat>, ghost g: Forest, u: nat, v: nat) returns (ghost g': Forest)
    requires IsForest(parent[..], g) && u < parent.Length && v < parent.Length
    modifies parent
    ensures IsForest(parent[..], g') && |g'.rep| == |g.rep|
    ensures forall x, y :: Together(g', x, y) <==>
              Together(g, x, y) || (Together(g, x, u) && Together(g, v, y)) || (Together(g, x, v) && Together(g, u, y))
  {
    var a := Find(parent, g, u);
    var b := Find(parent, g, v);
    if a == b { return g; }
    if a < b {
      g' := Joined(g, v, u);
      JoinedIsForest(parent[..], g, v, u);
    } else {
      g' := Joined(g, u, v);
      JoinedIsForest(parent[..], g, u, v);
    }
    ghost var linked := parent[..][(if a < b then b else a) := if a < b then a else b];
    parent[if a < b then b else a] := if a < b then a else b;
    assert parent[..] == linked;
  }

  predicate Marks(used: seq<bool>, uses: seq<Edge>) {
    forall v :: 0 <= v < |used| ==> (used[v] <==> Used(uses, v))
  }

  lemma MarkOne(used: seq<bool>, uses: seq<Edge>, e: Edge)
    requires Marks(used, uses) && e.0 < |used|
    ensures Marks(used[e.0 := true], uses + [e])
  {
    forall v | 0 <= v < |used| ensures used[e.0 := true][v] <==> Used(uses + [e], v) {
      if Used(uses, v) {
        var i :| 0 <= i < |uses| && uses[i].0 == v;
        assert (uses + [e])[i].0 == v;
      }
      if v == e.0 { assert (uses + [e])[|uses|].0 == v; }
    }
  }

  /** One directed edge: its tail is used, its ends join. */
  method JoinEdge(parent: array<nat>, used: array<bool>, ghost g: Forest, ghost uses: seq<Edge>, a: nat, b: nat) returns (ghost g': Forest)
    requires IsForest(parent[..], g) && Components(g, uses) && Marks(used[..], uses) && EdgesWithin(uses + [(a, b)], |g.rep|)
    requires a < parent.Length == used.Length && b < parent.Length
    modifies parent, used
    ensures IsForest(parent[..], g') && Components(g', uses + [(a, b)]) && Marks(used[..], uses + [(a, b)])
    ensures |g'.rep| == |g.rep|
  {
    hide IsForest, Components, Marks, EdgesWithin;
    assert |g.rep| == parent.Length by { ForestSize(parent[..], g); }
    MarkOne(used[..], uses, (a, b));
    ghost var marked := used[..][a := true];
    used[a] := true;
    assert used[..] == marked;
    g' := JoinMin(parent, g, a, b);
    OneMoreEdge(g, g', uses, (a, b));
  }

  lemma ForestSize(parent: seq<nat>, g: Forest)
    requires IsForest(parent, g)
    ensures |g.rep| == |parent|
  {
  }

  method CountComponents(nv: nat, f: seq<nat>) returns (components: nat, ghost g: Forest)
    requires forall i :: 0 <= i < |f| ==> f[i] < nv
    ensures |g.rep| == nv && RootsFixed(g) && Components(g, Uses(f, |f| / 3))
    ensures components == |Roots(g, Uses(f, |f| / 3), nv)|
    ensures CountsComponents(nv, Uses(f, |f| / 3), components)
  {
    hide CountsComponents, IsForest, Components, Marks, RootsFixed;
    var parent;
    parent, g := Fresh(nv);
    assert parent.Length == nv by { ForestSize(parent[..], g); }
    NoEdges(g);
    var used := new bool[nv](i => false);
    NoMarks(used[..]);
    var t := 0;
    ghost var n := 0;
    NoUses(f);
    while t + 2 < |f|
      invariant t == 3 * n <= |f| && parent.Length == used.Length == nv == |g.rep|
      invariant IsForest(parent[..], g) && Components(g, Uses(f, n)) && Marks(used[..], Uses(f, n))
    {
      ghost var uses := Uses(f, n);
      OneTriangle(f, n, t);
      UsesWithin(f, n + 1, nv);
      PrefixesWithin(uses, (f[t], f[t + 1]), (f[t + 1], f[t + 2]), (f[t + 2], f[t]), nv);
      g := JoinEdge(parent, used, g, uses, f[t], f[t + 1]);
      g := JoinEdge(parent, used, g, uses + [(f[t], f[t + 1])], f[t + 1], f[t + 2]);
      g := JoinEdge(parent, used, g, uses + [(f[t], f[t + 1])] + [(f[t + 1], f[t + 2])], f[t + 2], f[t]);
      t := t + 3;
      n := n + 1;
    }
    assert n == |f| / 3;
    components := CountRoots(parent, used, g, Uses(f, n));
    RootsAreOneEach(g, f);
  }

  lemma NoMarks(used: seq<bool>)
    requires forall v :: 0 <= v < |used| ==> !used[v]
    ensures Marks(used, [])
  {
  }

  lemma PrefixesWithin(uses: seq<Edge>, x: Edge, y: Edge, z: Edge, nv: nat)
    requires EdgesWithin(uses + [x] + [y] + [z], nv)
    ensures EdgesWithin(uses + [x] + [y], nv) && EdgesWithin(uses + [x], nv)
  {
    var all := uses + [x] + [y] + [z];
    forall i | 0 <= i < |uses| + 2 ensures (uses + [x] + [y])[i].0 < nv && (uses + [x] + [y])[i].1 < nv {
      assert all[i] == (uses + [x] + [y])[i];
    }
    forall i | 0 <= i < |uses| + 1 ensures (uses + [x])[i].0 < nv && (uses + [x])[i].1 < nv {
      assert all[i] == (uses + [x])[i];
    }
  }

  method CountRoots(parent: array<nat>, used: array<bool>, ghost g: Forest, ghost uses: seq<Edge>) returns (components: nat)
    requires IsForest(parent[..], g) && Marks(used[..], uses) && used.Length == parent.Length
    modifies parent
    ensures |g.rep| == parent.Length && RootsFixed(g) && components == |Roots(g, uses, |g.rep|)|
  {
    hide IsForest, Used, RootsFixed;
    ForestSize(parent[..], g);
    ForestRootsFixed(parent[..], g);
    components := 0;
    for i := 0 to used.Length
      invariant IsForest(parent[..], g) && Marks(used[..], uses) && components == |Roots(g, uses, i)|
    {
      var root := i;
      if used[i] { root := Find(parent, g, i); }
      NextRoot(g, uses, i);
      if used[i] && root == i {
        components := components + 1;
      }
    }
  }

  lemma NextRoot(g: Forest, uses: seq<Edge>, i: nat)
    requires i < |g.rep|
    ensures Roots(g, uses, i + 1) == Roots(g, uses, i) + if Used(uses, i) && g.rep[i] == i then {i} else {}
    ensures |Roots(g, uses, i + 1)| == |Roots(g, uses, i)| + if Used(uses, i) && g.rep[i] == i then 1 else 0
  {
    hide Used;
    assert Roots(g, uses, i + 1) == Roots(g, uses, i) + if Used(uses, i) && g.rep[i] == i then {i} else {};
  }

  /** The whole of topology(). */
  method Topology(nv: nat, f: seq<nat>)
    returns (edges: nat, loops: seq<seq<nat>>, components: nat, ghost boundary: seq<Edge>, ghost closed: seq<bool>, ghost g: Forest)
    requires forall i :: 0 <= i < |f| ==> f[i] < nv
    ensures edges == |set e | e in Unds(Uses(f, |f| / 3))|
    ensures ListsBoundary(boundary, Uses(f, |f| / 3))
    ensures |loops| == |closed| && forall i :: 0 <= i < |loops| ==> loops[i] != []
    ensures multiset(AllEdges(loops, closed)) == multiset(boundary)
    ensures AllClosed(closed) <==> Balanced(boundary)
    ensures Oriented(Uses(f, |f| / 3)) ==> AllClosed(closed)
    ensures Oriented(Uses(f, |f| / 3)) ==> multiset(AllEdges(loops, AllTrue(|loops|))) == multiset(boundary)
    ensures CountsComponents(nv, Uses(f, |f| / 3), components)
    ensures |g.rep| == nv && Components(g, Uses(f, |f| / 3)) && RootsFixed(g) && components == |Roots(g, Uses(f, |f| / 3), nv)|
  {
    hide CountsComponents, ListsBoundary, Counts, Oriented, Balanced, AllClosed, AllEdges, Components, RootsFixed, Roots;
    ghost var uses := Uses(f, |f| / 3);
    var directed, undirected := CountEdges(f);
    edges := |undirected|;
    KeyCount(undirected, Unds(uses));
    var next := Boundary(directed, undirected, uses);
    boundary := next;
    loops, closed := Walk(next);
    if Oriented(uses) { OrientedIsBalanced(f, boundary); }
    components, g := CountComponents(nv, f);
  }

  lemma KeyCount(m: map<Edge, nat>, es: seq<Edge>)
    requires Counts(m, es)
    ensures |m| == |set e | e in es|
  {
    assert m.Keys == set e | e in es by {
      forall e: Edge ensures e in m.Keys <==> e in es {
        assert e in es <==> e in multiset(es);
      }
    }
    assert |m| == |m.Keys|;
  }

  /** Two triangles that wind the same way round the edge they share: at its head two
      boundary edges leave and none enters, so a walk dead-ends. */
  lemma SameWindingDoesNotClose(next: seq<Edge>)
    requires ListsBoundary(next, Uses([0, 1, 2, 0, 1, 3], 2))
    ensures !Balanced(next)
  {
    hide *;
    var f: seq<nat> := [0, 1, 2, 0, 1, 3];
    TwoTriangles(f);
    TwiceOneWay();
    BoundarySurplus(f, next, 1);
    Unbalanced(next, 1);
  }

  lemma Unbalanced(es: seq<Edge>, v: nat)
    requires Surplus(es, v) != 0
    ensures !Balanced(es)
  {
  }

  const TWO_TRIANGLES: seq<Edge> := [(0, 1), (1, 2), (2, 0), (0, 1), (1, 3), (3, 0)]

  lemma TwoTriangles(f: seq<nat>)
    requires f == [0, 1, 2, 0, 1, 3]
    ensures |f| / 3 == 2 && Uses(f, 2) == TWO_TRIANGLES
  {
    assert Uses(f, 1) == [(0, 1), (1, 2), (2, 0)] by { assert Uses(f, 0) == []; }
    assert TWO_TRIANGLES == TWO_TRIANGLES[..3] + TWO_TRIANGLES[3..];
  }

  lemma InnerOfTwo(e: Edge)
    ensures multiset(Part(TWO_TRIANGLES, TWO_TRIANGLES, false))[e] == if e == (0, 1) then 2 else 0
  {
    hide Part, Unds;
    PartCounts(TWO_TRIANGLES, TWO_TRIANGLES, false, e);
    UndCount(TWO_TRIANGLES, e);
    assert e in TWO_TRIANGLES <==> multiset(TWO_TRIANGLES)[e] > 0;
  }

  lemma TwiceOneWay()
    ensures Surplus(Part(TWO_TRIANGLES, TWO_TRIANGLES, false), 1) == -2
  {
    hide Part;
    var inner := Part(TWO_TRIANGLES, TWO_TRIANGLES, false);
    var twice: seq<Edge> := [(0, 1)] + [(0, 1)];
    forall e: Edge ensures multiset(inner)[e] == multiset(twice)[e] {
      InnerOfTwo(e);
    }
    assert multiset(inner) == multiset(twice);
    SurplusOfMultiset(inner, twice, 1);
    SurplusAppend([(0, 1)], [(0, 1)], 1);
    SurplusOne((0, 1), 1);
  }
}
