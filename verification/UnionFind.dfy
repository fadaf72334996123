/** cloth_grid and curvenet: union-find with path halving over a parent array. */
module UnionFind {

  /** What the parent array means: the representative of each element, and a measure
      that falls along every parent link. */
  datatype Forest = Forest(rep: seq<nat>, height: seq<nat>)

  ghost predicate IsForest(parent: seq<nat>, g: Forest) {
    && |parent| == |g.rep| == |g.height|
    && forall x :: 0 <= x < |parent| ==> Linked(parent, g, x)
  }

  ghost predicate Linked(parent: seq<nat>, g: Forest, x: nat)
    requires x < |parent| == |g.rep| == |g.height|
  {
    && parent[x] < |parent| && g.rep[x] < |parent|
    && g.rep[parent[x]] == g.rep[x] && parent[g.rep[x]] == g.rep[x]
    && (parent[x] == x ==> g.rep[x] == x)
    && (parent[x] != x ==> g.height[parent[x]] < g.height[x])
  }

  /** Same representative. */
  predicate Together(g: Forest, x: nat, y: nat) {
    x < |g.rep| && y < |g.rep| && g.rep[x] == g.rep[y]
  }

  ghost function Singletons(n: nat): (g: Forest)
    ensures |g.rep| == |g.height| == n && forall i :: 0 <= i < n ==> g.rep[i] == i
  {
    if n == 0 then Forest([], []) else var g := Singletons(n - 1); Forest(g.rep + [n - 1], g.height + [0])
  }

  /** Every element on its own. */
  method Fresh(n: nat) returns (parent: array<nat>, ghost g: Forest)
    ensures fresh(parent) && IsForest(parent[..], g) && |g.rep| == n
    ensures forall x, y :: Together(g, x, y) ==> x == y
  {
    parent := new nat[n];
    for v := 0 to n
      invariant forall u :: 0 <= u < v ==> parent[u] == u
    {
      parent[v] := v;
    }
    g := Singletons(n);
  }

  lemma Halve(parent: seq<nat>, g: Forest, x: nat)
    requires IsForest(parent, g) && x < |parent| && parent[x] != x
    ensures parent[x] < |parent| && parent[parent[x]] < |parent|
    ensures IsForest(parent[x := parent[parent[x]]], g)
    ensures g.rep[parent[parent[x]]] == g.rep[x] && g.height[parent[parent[x]]] < g.height[x]
  {
    assert Linked(parent, g, x) && Linked(parent, g, parent[x]) && Linked(parent, g, parent[parent[x]]);
    var parent' := parent[x := parent[parent[x]]];
    forall y | 0 <= y < |parent| ensures Linked(parent', g, y) {
      assert Linked(parent, g, y);
    }
  }

  /** uf_find: x's representative; halving the path changes no representative. */
  method Find(parent: array<nat>, ghost g: Forest, x0: nat) returns (x: nat)
    requires IsForest(parent[..], g) && x0 < parent.Length
    modifies parent
    ensures IsForest(parent[..], g) && x < parent.Length && x == g.rep[x0] && parent[x] == x
  {
    x := x0;
    while parent[x] != x
      invariant x < parent.Length && IsForest(parent[..], g) && g.rep[x] == g.rep[x0]
      decreases g.height[x]
    {
      Halve(parent[..], g, x);
      ghost var halved := parent[..][x := parent[parent[x]]];
      parent[x] := parent[parent[x]];
      assert parent[..] == halved;
      x := parent[x];
    }
    assert Linked(parent[..], g, x);
  }

  /** a's class under b's representative. */
  ghost function Joined(g: Forest, a: nat, b: nat): (g': Forest)
    requires a < |g.rep| == |g.height| && b < |g.rep| && g.rep[b] < |g.rep|
    ensures |g'.rep| == |g'.height| == |g.rep|
    ensures forall y :: 0 <= y < |g.rep| ==> g'.rep[y] == if g.rep[y] == g.rep[a] then g.rep[b] else g.rep[y]
    ensures forall y :: 0 <= y < |g.rep| ==>
              g'.height[y] == if g.rep[y] == g.rep[a] && g.rep[a] != g.rep[b] then g.height[y] + g.height[g.rep[b]] + 1 else g.height[y]
  {
    Forest(seq(|g.rep|, y requires 0 <= y < |g.rep| => if g.rep[y] == g.rep[a] then g.rep[b] else g.rep[y]),
           seq(|g.rep|, y requires 0 <= y < |g.rep| =>
             if g.rep[y] == g.rep[a] && g.rep[a] != g.rep[b] then g.height[y] + g.height[g.rep[b]] + 1 else g.height[y]))
  }

  lemma JoinedIsForest(parent: seq<nat>, g: Forest, a: nat, b: nat)
    requires IsForest(parent, g) && a < |parent| && b < |parent|
    ensures g.rep[a] < |parent| && g.rep[b] < |parent|
    ensures IsForest(parent[g.rep[a] := g.rep[b]], Joined(g, a, b))
  {
    assert Linked(parent, g, a) && Linked(parent, g, b);
    assert Linked(parent, g, g.rep[a]) && Linked(parent, g, g.rep[b]);
    var ra, rb, g' := g.rep[a], g.rep[b], Joined(g, a, b);
    var parent' := parent[ra := rb];
    forall y | 0 <= y < |parent| ensures Linked(parent', g', y) {
      assert Linked(parent, g, y);
      assert Linked(parent, g, g.rep[y]) && Linked(parent, g, parent[y]);
    }
  }

  /** uf_union: a's root comes under b's. */
  method Union(parent: array<nat>, ghost g: Forest, a: nat, b: nat) returns (ghost g': Forest)
    requires IsForest(parent[..], g) && a < parent.Length && b < parent.Length
    modifies parent
    ensures IsForest(parent[..], g') && |g'.rep| == |g.rep|
    ensures forall x, y :: Together(g', x, y) <==>
              Together(g, x, y) || (Together(g, x, a) && Together(g, b, y)) || (Together(g, x, b) && Together(g, a, y))
  {
    var rb := Find(parent, g, b);
    var ra := Find(parent, g, a);
    g' := Joined(g, a, b);
    JoinedIsForest(parent[..], g, a, b);
    ghost var linked := parent[..][ra := rb];
    parent[ra] := rb;
    assert parent[..] == linked;
  }

  // --- classes are connected components ------------------------------------------------

  /** An edge of es joins u and v, one way or the other. */
  predicate Adjacent(es: seq<(nat, nat)>, u: nat, v: nat) {
    (u, v) in es || (v, u) in es
  }

  ghost predicate IsPath(es: seq<(nat, nat)>, p: seq<nat>, x: nat, y: nat) {
    && p != [] && p[0] == x && p[|p| - 1] == y
    && forall i, j :: 0 <= i < j < |p| && j == i + 1 ==> Adjacent(es, p[i], p[j])
  }

  ghost predicate Connected(es: seq<(nat, nat)>, x: nat, y: nat) {
    exists p :: IsPath(es, p, x, y)
  }

  /** The classes are the connected components of the graph es. */
  ghost predicate Components(g: Forest, es: seq<(nat, nat)>) {
    forall x, y :: 0 <= x < |g.rep| && 0 <= y < |g.rep| ==> (Together(g, x, y) <==> Connected(es, x, y))
  }

  predicate EdgesWithin(es: seq<(nat, nat)>, n: nat) {
    forall i :: 0 <= i < |es| ==> es[i].0 < n && es[i].1 < n
  }

  lemma PathJoin(es: seq<(nat, nat)>, p: seq<nat>, q: seq<nat>, x: nat, y: nat, z: nat)
    requires IsPath(es, p, x, y) && IsPath(es, q, y, z)
    ensures IsPath(es, p + q[1..], x, z)
  {
    var r := p + q[1..];
    forall i, j | 0 <= i < j < |r| && j == i + 1 ensures Adjacent(es, r[i], r[j]) {
      if j >= |p| {
        assert r[j] == q[j - |p| + 1];
        assert r[i] == q[i - |p| + 1];
      }
    }
  }

  lemma ConnectedJoin(es: seq<(nat, nat)>, x: nat, y: nat, z: nat)
    requires Connected(es, x, y) && Connected(es, y, z)
    ensures Connected(es, x, z)
  {
    var p :| IsPath(es, p, x, y);
    var q :| IsPath(es, q, y, z);
    PathJoin(es, p, q, x, y, z);
  }

  lemma ConnectedMore(es: seq<(nat, nat)>, e: (nat, nat), x: nat, y: nat)
    requires Connected(es, x, y)
    ensures Connected(es + [e], x, y)
  {
    var p :| IsPath(es, p, x, y);
    assert IsPath(es + [e], p, x, y);
  }

  lemma ConnectedByEdge(es: seq<(nat, nat)>, e: (nat, nat))
    ensures Connected(es + [e], e.0, e.1) && Connected(es + [e], e.1, e.0)
  {
    assert (es + [e])[|es|] == e;
    assert IsPath(es + [e], [e.0, e.1], e.0, e.1);
    assert IsPath(es + [e], [e.1, e.0], e.1, e.0);
  }

  /** A class closed under the edges holds every path that starts in it. */
  lemma {:induction false} PathStays(g: Forest, es: seq<(nat, nat)>, p: seq<nat>, x: nat, y: nat)
    requires IsPath(es, p, x, y) && x < |g.rep| && EdgesWithin(es, |g.rep|)
    requires forall i :: 0 <= i < |es| ==> Together(g, es[i].0, es[i].1)
    ensures Together(g, x, y)
    decreases |p|
  {
    if |p| > 1 {
      var n := |p| - 1;
      PathStays(g, es, p[..n], x, p[n - 1]);
      assert Adjacent(es, p[n - 1], p[n]);
    }
  }

  lemma NoEdges(g: Forest)
    requires forall x, y :: Together(g, x, y) ==> x == y
    ensures Components(g, [])
  {
    forall x, y | 0 <= x < |g.rep| && 0 <= y < |g.rep| ensures Together(g, x, y) <==> Connected([], x, y) {
      if Together(g, x, y) { assert IsPath([], [x], x, y); }
      if Connected([], x, y) {
        var p :| IsPath([], p, x, y);
        if |p| > 1 { assert Adjacent([], p[0], p[1]); }
      }
    }
  }

  /** One union keeps the classes the components of one edge more. */
  lemma OneMoreEdge(g: Forest, g': Forest, es: seq<(nat, nat)>, e: (nat, nat))
    requires Components(g, es) && |g'.rep| == |g.rep| && EdgesWithin(es + [e], |g.rep|)
    requires forall x, y :: Together(g', x, y) <==>
               Together(g, x, y) || (Together(g, x, e.0) && Together(g, e.1, y)) || (Together(g, x, e.1) && Together(g, e.0, y))
    ensures Components(g', es + [e])
  {
    hide Connected;
    assert (es + [e])[|es|] == e;
    forall i | 0 <= i < |es + [e]| ensures Together(g', (es + [e])[i].0, (es + [e])[i].1) {
      if i < |es| {
        assert (es + [e])[i] == es[i];
        EdgeConnects(es, i);
      }
    }
    forall x, y | 0 <= x < |g.rep| && 0 <= y < |g.rep| ensures Together(g', x, y) <==> Connected(es + [e], x, y) {
      if Together(g', x, y) { JoinConnects(g, es, e, x, y); }
      if Connected(es + [e], x, y) { ConnectedStays(g', es + [e], x, y); }
    }
  }

  lemma EdgeConnects(es: seq<(nat, nat)>, i: nat)
    requires i < |es|
    ensures Connected(es, es[i].0, es[i].1)
  {
    assert IsPath(es, [es[i].0, es[i].1], es[i].0, es[i].1);
  }

  lemma ConnectedStays(g: Forest, es: seq<(nat, nat)>, x: nat, y: nat)
    requires Connected(es, x, y) && x < |g.rep| && EdgesWithin(es, |g.rep|)
    requires forall i :: 0 <= i < |es| ==> Together(g, es[i].0, es[i].1)
    ensures Together(g, x, y)
  {
    var p :| IsPath(es, p, x, y);
    PathStays(g, es, p, x, y);
  }

  lemma JoinConnects(g: Forest, es: seq<(nat, nat)>, e: (nat, nat), x: nat, y: nat)
    requires Components(g, es) && x < |g.rep| && y < |g.rep| && e.0 < |g.rep| && e.1 < |g.rep|
    requires Together(g, x, y) || (Together(g, x, e.0) && Together(g, e.1, y)) || (Together(g, x, e.1) && Together(g, e.0, y))
    ensures Connected(es + [e], x, y)
  {
    hide Connected;
    ConnectedByEdge(es, e);
    if Together(g, x, y) {
      ConnectedMore(es, e, x, y);
    } else if Together(g, x, e.0) && Together(g, e.1, y) {
      ConnectedMore(es, e, x, e.0);
      ConnectedMore(es, e, e.1, y);
      ConnectedJoin(es + [e], x, e.0, e.1);
      ConnectedJoin(es + [e], x, e.1, y);
    } else {
      ConnectedMore(es, e, x, e.1);
      ConnectedMore(es, e, e.0, y);
      ConnectedJoin(es + [e], x, e.1, e.0);
      ConnectedJoin(es + [e], x, e.0, y);
    }
  }
}
