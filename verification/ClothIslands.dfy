/** cloth_grid: partition_islands and combine_meshes. */
module ClothIslands {
  import opened AvbdTopology
  import opened UnionFind

  /** A constraint: the vertices it names and its rest data. */
  datatype Con<D> = Con(ids: seq<nat>, data: D)

  /** A cloth mesh, element by element: positions and mass, then the triangles, bending
      stencils and attachments with their rest data. */
  datatype Mesh<V, D> = Mesh(verts: seq<V>, tris: seq<Con<D>>, bends: seq<Con<D>>, attaches: seq<Con<D>>)

  predicate ConsOver<D>(cons: seq<Con<D>>, K: nat, nV: nat) {
    forall c :: 0 <= c < |cons| ==> |cons[c].ids| == K && forall r :: 0 <= r < K ==> cons[c].ids[r] < nV
  }

  predicate ValidMesh<V, D>(m: Mesh<V, D>) {
    ConsOver(m.tris, 3, |m.verts|) && ConsOver(m.bends, 4, |m.verts|) && ConsOver(m.attaches, 1, |m.verts|)
  }

  // --- the graph the islands are the components of ------------------------------------------------

  /** A constraint links its first vertex to each of its next r. */
  function Star(ids: seq<nat>, r: nat): seq<(nat, nat)>
    requires r < |ids| || r == 0
  {
    if r == 0 then [] else Star(ids, r - 1) + [(ids[0], ids[r])]
  }

  function Stars<D>(cons: seq<Con<D>>, K: nat, n: nat): seq<(nat, nat)>
    requires K > 0 && n <= |cons| && forall c :: 0 <= c < |cons| ==> |cons[c].ids| == K
  {
    if n == 0 then [] else Stars(cons, K, n - 1) + Star(cons[n - 1].ids, K - 1)
  }

  function Graph<V, D>(m: Mesh<V, D>): seq<(nat, nat)>
    requires ValidMesh(m)
  {
    Stars(m.tris, 3, |m.tris|) + Stars(m.bends, 4, |m.bends|)
  }

  // --- dense island ids ------------------------------------------------------------------------------

  /** Vertices are in one island exactly when they are connected; ids are dense. */
  ghost predicate IsPartition(islandOf: seq<nat>, nIsl: nat, es: seq<(nat, nat)>) {
    && InRange(islandOf, nIsl)
    && (forall u, v :: 0 <= u < |islandOf| && 0 <= v < |islandOf| ==> (islandOf[u] == islandOf[v] <==> Connected(es, u, v)))
    && (forall i :: 0 <= i < nIsl ==> i in islandOf)
  }

  method UniteStar(parent: array<nat>, ghost g: Forest, ghost es: seq<(nat, nat)>, ids: seq<nat>) returns (ghost g': Forest)
    requires |ids| > 0 && IsForest(parent[..], g) && Components(g, es) && EdgesWithin(es, |g.rep|)
    requires forall r :: 0 <= r < |ids| ==> ids[r] < parent.Length
    modifies parent
    ensures IsForest(parent[..], g') && |g'.rep| == |g.rep| && Components(g', es + Star(ids, |ids| - 1))
    ensures EdgesWithin(es + Star(ids, |ids| - 1), |g.rep|)
  {
    hide IsForest, Components;
    assert |g.rep| == parent.Length by { Sizes(parent[..], g); }
    g' := g;
    assert es + Star(ids, 0) == es;
    for r := 1 to |ids|
      invariant IsForest(parent[..], g') && |g'.rep| == |g.rep| && Components(g', es + Star(ids, r - 1))
      invariant EdgesWithin(es + Star(ids, r - 1), |g.rep|)
    {
      ghost var was, so := g', es + Star(ids, r - 1);
      g' := Union(parent, g', ids[0], ids[r]);
      assert es + Star(ids, r) == so + [(ids[0], ids[r])];
      OneMoreEdge(was, g', so, (ids[0], ids[r]));
    }
  }

  lemma Sizes(parent: seq<nat>, g: Forest)
    requires IsForest(parent, g)
    ensures |g.rep| == |parent|
  {
  }

  method UniteAll<D>(parent: array<nat>, ghost g: Forest, ghost es: seq<(nat, nat)>, cons: seq<Con<D>>, K: nat) returns (ghost g': Forest)
    requires K > 0 && IsForest(parent[..], g) && Components(g, es) && EdgesWithin(es, |g.rep|) && ConsOver(cons, K, parent.Length)
    modifies parent
    ensures IsForest(parent[..], g') && |g'.rep| == |g.rep| && Components(g', es + Stars(cons, K, |cons|))
    ensures EdgesWithin(es + Stars(cons, K, |cons|), |g.rep|)
  {
    hide IsForest, Components, EdgesWithin, Stars, Star;
    g' := g;
    NoStars(es, cons, K);
    for c := 0 to |cons|
      invariant IsForest(parent[..], g') && |g'.rep| == |g.rep| && Components(g', es + Stars(cons, K, c))
      invariant EdgesWithin(es + Stars(cons, K, c), |g.rep|)
    {
      ghost var so := es + Stars(cons, K, c);
      g' := UniteStar(parent, g', so, cons[c].ids);
      NextStar(es, cons, K, c);
    }
  }

  lemma NoStars<D>(es: seq<(nat, nat)>, cons: seq<Con<D>>, K: nat)
    requires K > 0 && forall c :: 0 <= c < |cons| ==> |cons[c].ids| == K
    ensures es + Stars(cons, K, 0) == es
  {
  }

  lemma NextStar<D>(es: seq<(nat, nat)>, cons: seq<Con<D>>, K: nat, c: nat)
    requires K > 0 && c < |cons| && forall i :: 0 <= i < |cons| ==> |cons[i].ids| == K
    ensures es + Stars(cons, K, c + 1) == (es + Stars(cons, K, c)) + Star(cons[c].ids, K - 1)
  {
  }

  /** Each root gets the next id when its first vertex is met. */
  ghost predicate Numbered(g: Forest, islandOf: seq<nat>, ids: map<nat, nat>, nIsl: nat) {
    && |islandOf| <= |g.rep|
    && (forall v :: 0 <= v < |islandOf| ==> g.rep[v] in ids && islandOf[v] == ids[g.rep[v]])
    && (forall r :: r in ids ==> ids[r] < nIsl)
    && (forall r, s :: r in ids && s in ids && r != s ==> ids[r] != ids[s])
    && (forall i :: 0 <= i < nIsl ==> i in islandOf)
  }

  lemma NumberOne(g: Forest, islandOf: seq<nat>, ids: map<nat, nat>, nIsl: nat, r: nat)
    requires Numbered(g, islandOf, ids, nIsl) && |islandOf| < |g.rep| && r == g.rep[|islandOf|]
    ensures r in ids ==> Numbered(g, islandOf + [ids[r]], ids, nIsl)
    ensures r !in ids ==> Numbered(g, islandOf + [nIsl], ids[r := nIsl], nIsl + 1)
  {
    if r in ids {
      forall i | 0 <= i < nIsl ensures i in islandOf + [ids[r]] { assert i in islandOf; }
    } else {
      assert (islandOf + [nIsl])[|islandOf|] == nIsl;
      forall i | 0 <= i < nIsl + 1 ensures i in islandOf + [nIsl] { if i < nIsl { assert i in islandOf; } }
    }
  }

  method NumberIslands(parent: array<nat>, ghost g: Forest, ghost es: seq<(nat, nat)>) returns (islandOf: seq<nat>, nIsl: nat)
    requires IsForest(parent[..], g) && Components(g, es)
    modifies parent
    ensures |islandOf| == parent.Length && IsPartition(islandOf, nIsl, es)
  {
    hide IsForest, Numbered, Components;
    Sizes(parent[..], g);
    islandOf, nIsl := [], 0;
    var ids: map<nat, nat> := map[];
    NothingNumbered(g);
    for v := 0 to parent.Length
      invariant IsForest(parent[..], g) && |islandOf| == v && Numbered(g, islandOf, ids, nIsl)
    {
      var r := Find(parent, g, v);
      NumberOne(g, islandOf, ids, nIsl, r);
      if r !in ids {
        ids := ids[r := nIsl];
        islandOf := islandOf + [nIsl];
        nIsl := nIsl + 1;
      } else {
        islandOf := islandOf + [ids[r]];
      }
    }
    NumberedIsPartition(g, islandOf, ids, nIsl, es);
  }

  lemma NothingNumbered(g: Forest)
    ensures Numbered(g, [], map[], 0)
  {
  }

  lemma NumberedIsPartition(g: Forest, islandOf: seq<nat>, ids: map<nat, nat>, nIsl: nat, es: seq<(nat, nat)>)
    requires Numbered(g, islandOf, ids, nIsl) && |islandOf| == |g.rep| && Components(g, es)
    ensures IsPartition(islandOf, nIsl, es)
  {
    hide Connected;
    forall u, v | 0 <= u < |islandOf| && 0 <= v < |islandOf| ensures islandOf[u] == islandOf[v] <==> Connected(es, u, v) {
      assert Together(g, u, v) <==> g.rep[u] == g.rep[v];
    }
  }

  // --- a constraint lies in one island -------------------------------------------------------------------

  lemma {:induction false} StarHas(ids: seq<nat>, r: nat, q: nat)
    requires 0 < q <= r < |ids|
    ensures (ids[0], ids[q]) in Star(ids, r)
  {
    if q < r { StarHas(ids, r - 1, q); } else { assert Star(ids, r)[|Star(ids, r - 1)|] == (ids[0], ids[q]); }
  }

  lemma {:induction false} StarsHave<D>(cons: seq<Con<D>>, K: nat, n: nat, c: nat, q: nat)
    requires n <= |cons| && (forall i :: 0 <= i < |cons| ==> |cons[i].ids| == K) && c < n && 0 < q < K
    ensures (cons[c].ids[0], cons[c].ids[q]) in Stars(cons, K, n)
  {
    hide Star;
    var before, last := Stars(cons, K, n - 1), Star(cons[n - 1].ids, K - 1);
    var e := (cons[c].ids[0], cons[c].ids[q]);
    if c < n - 1 {
      StarsHave(cons, K, n - 1, c, q);
    } else {
      StarHas(cons[c].ids, K - 1, q);
    }
    InEither(before, last, e);
  }

  lemma InEither(a: seq<(nat, nat)>, b: seq<(nat, nat)>, e: (nat, nat))
    requires e in a || e in b
    ensures e in a + b
  {
  }

  /** Every vertex of the constraint is in its first vertex's island. */
  predicate Whole(islandOf: seq<nat>, ids: seq<nat>) {
    |ids| > 0 && ids[0] < |islandOf| && forall r :: 0 <= r < |ids| ==> ids[r] < |islandOf| && islandOf[ids[r]] == islandOf[ids[0]]
  }

  lemma LinkedTogether(islandOf: seq<nat>, nIsl: nat, es: seq<(nat, nat)>, u: nat, v: nat)
    requires IsPartition(islandOf, nIsl, es) && (u, v) in es && u < |islandOf| && v < |islandOf|
    ensures islandOf[u] == islandOf[v]
  {
    var i :| 0 <= i < |es| && es[i] == (u, v);
    EdgeConnects(es, i);
  }

  /** Each triangle, stencil and attachment lands whole in one island. */
  lemma ConstraintsWhole<V, D>(m: Mesh<V, D>, islandOf: seq<nat>, nIsl: nat)
    requires ValidMesh(m) && |islandOf| == |m.verts| && IsPartition(islandOf, nIsl, Graph(m))
    ensures AllWhole(islandOf, m.tris) && AllWhole(islandOf, m.bends) && AllWhole(islandOf, m.attaches)
  {
    hide IsPartition, Stars;
    var es := Graph(m);
    forall c, r | 0 <= c < |m.tris| && 0 <= r < 3 ensures islandOf[m.tris[c].ids[r]] == islandOf[m.tris[c].ids[0]] {
      if r > 0 {
        StarsHave(m.tris, 3, |m.tris|, c, r);
        LinkedTogether(islandOf, nIsl, es, m.tris[c].ids[0], m.tris[c].ids[r]);
      }
    }
    forall c, r | 0 <= c < |m.bends| && 0 <= r < 4 ensures islandOf[m.bends[c].ids[r]] == islandOf[m.bends[c].ids[0]] {
      if r > 0 {
        StarsHave(m.bends, 4, |m.bends|, c, r);
        LinkedTogether(islandOf, nIsl, es, m.bends[c].ids[0], m.bends[c].ids[r]);
      }
    }
  }

  predicate AllWhole<D>(islandOf: seq<nat>, cons: seq<Con<D>>) {
    forall c :: 0 <= c < |cons| ==> Whole(islandOf, cons[c].ids)
  }

  // --- the islands' meshes -----------------------------------------------------------------------------------

  /** v's number in its island: the island's vertices before it. */
  function LocalOf(islandOf: seq<nat>, v: nat): nat
    requires v < |islandOf|
  {
    |Places(islandOf, islandOf[v], v)|
  }

  function Picked<V>(verts: seq<V>, ps: seq<nat>): (vs: seq<V>)
    requires forall k :: 0 <= k < |ps| ==> ps[k] < |verts|
    ensures |vs| == |ps| && forall k :: 0 <= k < |ps| ==> vs[k] == verts[ps[k]]
  {
    if ps == [] then [] else Picked(verts, ps[..|ps| - 1]) + [verts[ps[|ps| - 1]]]
  }

  /** Vertex numbers renamed. */
  function Renamed(ids: seq<nat>, f: nat -> nat): (rs: seq<nat>)
    ensures |rs| == |ids| && forall r :: 0 <= r < |ids| ==> rs[r] == f(ids[r])
  {
    if ids == [] then [] else Renamed(ids[..|ids| - 1], f) + [f(ids[|ids| - 1])]
  }

  function RenamedCon<D>(c: Con<D>, f: nat -> nat): Con<D> {
    Con(Renamed(c.ids, f), c.data)
  }

  function Local(islandOf: seq<nat>): nat -> nat {
    (v: nat) => if v < |islandOf| then LocalOf(islandOf, v) else 0
  }

  /** Island i's constraints, in order, in its own vertex numbers. */
  function ConsIn<D>(cons: seq<Con<D>>, islandOf: seq<nat>, i: nat): seq<Con<D>>
    requires AllWhole(islandOf, cons)
  {
    if cons == [] then []
    else
      var c := cons[|cons| - 1];
      assert AllWhole(islandOf, cons[..|cons| - 1]);
      assert Whole(islandOf, c.ids);
      ConsIn(cons[..|cons| - 1], islandOf, i) + if islandOf[c.ids[0]] == i then [RenamedCon(c, Local(islandOf))] else []
  }

  function IslandMesh<V, D>(m: Mesh<V, D>, islandOf: seq<nat>, i: nat): Mesh<V, D>
    requires |islandOf| == |m.verts| && AllWhole(islandOf, m.tris) && AllWhole(islandOf, m.bends) && AllWhole(islandOf, m.attaches)
  {
    Mesh(Picked(m.verts, Places(islandOf, i, |islandOf|)),
         ConsIn(m.tris, islandOf, i), ConsIn(m.bends, islandOf, i), ConsIn(m.attaches, islandOf, i))
  }

  /** The islands as partition_islands fills them: vertices first, then each kind of
      constraint, each going to the island of its first vertex. */
  method FillVerts<V, D>(verts: seq<V>, islandOf: seq<nat>, nIsl: nat) returns (parts: seq<Mesh<V, D>>, localOf: seq<nat>)
    requires |islandOf| == |verts| && InRange(islandOf, nIsl)
    ensures |parts| == nIsl && |localOf| == |verts|
    ensures forall v :: 0 <= v < |verts| ==> localOf[v] == LocalOf(islandOf, v)
    ensures forall i :: 0 <= i < nIsl ==> parts[i] == Mesh(Picked(verts, Places(islandOf, i, |verts|)), [], [], [])
  {
    hide Places, Picked;
    parts := seq(nIsl, i => Mesh([], [], [], []));
    localOf := [];
    assert forall i: nat :: Picked(verts, Places(islandOf, i, 0)) == [];
    for v := 0 to |verts|
      invariant |parts| == nIsl && |localOf| == v
      invariant forall u :: 0 <= u < v ==> localOf[u] == LocalOf(islandOf, u)
      invariant forall i :: 0 <= i < nIsl ==> parts[i] == Mesh(Picked(verts, Places(islandOf, i, v)), [], [], [])
    {
      var i := islandOf[v];
      forall j: nat | j < nIsl
        ensures Picked(verts, Places(islandOf, j, v + 1)) == Picked(verts, Places(islandOf, j, v)) + if j == i then [verts[v]] else []
      {
        NextVert(verts, islandOf, j, v);
      }
      localOf := localOf + [|parts[i].verts|];
      parts := parts[i := parts[i].(verts := parts[i].verts + [verts[v]])];
    }
  }

  lemma NextVert<V>(verts: seq<V>, islandOf: seq<nat>, i: nat, v: nat)
    requires v < |islandOf| == |verts|
    ensures Picked(verts, Places(islandOf, i, v + 1)) == Picked(verts, Places(islandOf, i, v)) + if islandOf[v] == i then [verts[v]] else []
  {
    var ps := Places(islandOf, i, v);
    if islandOf[v] == i {
      assert (ps + [v])[..|ps + [v]| - 1] == ps;
    } else {
      assert Places(islandOf, i, v + 1) == ps;
    }
  }

  /** One kind of constraint, dealt out to the islands. */
  method Deal<D>(cons: seq<Con<D>>, islandOf: seq<nat>, localOf: seq<nat>, nIsl: nat) returns (dealt: seq<seq<Con<D>>>)
    requires AllWhole(islandOf, cons) && InRange(islandOf, nIsl) && |localOf| == |islandOf|
    requires forall v :: 0 <= v < |islandOf| ==> localOf[v] == LocalOf(islandOf, v)
    ensures |dealt| == nIsl && forall i :: 0 <= i < nIsl ==> dealt[i] == ConsIn(cons, islandOf, i)
  {
    hide LocalOf;
    dealt := seq(nIsl, i => []);
    for c := 0 to |cons|
      invariant |dealt| == nIsl && AllWhole(islandOf, cons[..c])
      invariant forall i :: 0 <= i < nIsl ==> dealt[i] == ConsIn(cons[..c], islandOf, i)
    {
      assert Whole(islandOf, cons[c].ids);
      assert cons[..c + 1][..c] == cons[..c];
      var ids: seq<nat> := [];
      for r := 0 to |cons[c].ids|
        invariant |ids| == r && forall q :: 0 <= q < r ==> ids[q] == Local(islandOf)(cons[c].ids[q])
      {
        ids := ids + [localOf[cons[c].ids[r]]];
      }
      assert ids == Renamed(cons[c].ids, Local(islandOf));
      var i := islandOf[cons[c].ids[0]];
      dealt := dealt[i := dealt[i] + [Con(ids, cons[c].data)]];
    }
    assert cons[..|cons|] == cons;
  }

  method PartitionIslands<V, D>(m: Mesh<V, D>) returns (parts: seq<Mesh<V, D>>, ghost islandOf: seq<nat>)
    requires ValidMesh(m)
    ensures |islandOf| == |m.verts| && IsPartition(islandOf, |parts|, Graph(m))
    ensures AllWhole(islandOf, m.tris) && AllWhole(islandOf, m.bends) && AllWhole(islandOf, m.attaches)
    ensures forall i :: 0 <= i < |parts| ==> parts[i] == IslandMesh(m, islandOf, i)
    ensures SplitIntoIslands(m, parts)
  {
    hide SplitIntoIslands, IsForest, Components, IsPartition, AllWhole, Places, ConsIn;
    var parent;
    ghost var g;
    parent, g := Fresh(|m.verts|);
    assert parent.Length == |m.verts| by { Sizes(parent[..], g); }
    NoEdges(g);
    NoneWithin(|g.rep|);
    g := UniteAll(parent, g, [], m.tris, 3);
    assert [] + Stars(m.tris, 3, |m.tris|) == Stars(m.tris, 3, |m.tris|);
    g := UniteAll(parent, g, Stars(m.tris, 3, |m.tris|), m.bends, 4);
    var isl, nIsl := NumberIslands(parent, g, Graph(m));
    islandOf := isl;
    ConstraintsWhole(m, isl, nIsl);
    assert InRange(isl, nIsl) by { PartitionInRange(isl, nIsl, Graph(m)); }
    var localOf;
    parts, localOf := FillVerts(m.verts, isl, nIsl);
    var tris := Deal(m.tris, isl, localOf, nIsl);
    var bends := Deal(m.bends, isl, localOf, nIsl);
    var attaches := Deal(m.attaches, isl, localOf, nIsl);
    for i := 0 to nIsl
      invariant |parts| == nIsl
      invariant forall j :: 0 <= j < i ==> parts[j] == IslandMesh(m, isl, j)
      invariant forall j :: i <= j < nIsl ==> parts[j] == Mesh(Picked(m.verts, Places(isl, j, |m.verts|)), [], [], [])
    {
      parts := parts[i := parts[i].(tris := tris[i], bends := bends[i], attaches := attaches[i])];
    }
    SplitBy(m, isl, parts);
  }

  lemma SplitBy<V, D>(m: Mesh<V, D>, islandOf: seq<nat>, parts: seq<Mesh<V, D>>)
    requires ValidMesh(m) && |islandOf| == |m.verts| && IsPartition(islandOf, |parts|, Graph(m))
    requires AllWhole(islandOf, m.tris) && AllWhole(islandOf, m.bends) && AllWhole(islandOf, m.attaches)
    requires forall i :: 0 <= i < |parts| ==> parts[i] == IslandMesh(m, islandOf, i)
    ensures SplitIntoIslands(m, parts)
  {
    hide IsPartition, AllWhole, IslandMesh;
    assert AreIslands(m, islandOf, parts);
  }

  lemma NoneWithin(n: nat)
    ensures EdgesWithin([], n)
  {
  }

  lemma PartitionInRange(islandOf: seq<nat>, nIsl: nat, es: seq<(nat, nat)>)
    requires IsPartition(islandOf, nIsl, es)
    ensures InRange(islandOf, nIsl)
  {
  }

  // --- combine_meshes -------------------------------------------------------------------------------------------

  function ShiftedIds(ids: seq<nat>, off: nat): (rs: seq<nat>)
    ensures |rs| == |ids| && forall r :: 0 <= r < |ids| ==> rs[r] == ids[r] + off
  {
    if ids == [] then [] else ShiftedIds(ids[..|ids| - 1], off) + [ids[|ids| - 1] + off]
  }

  function Shifted<D>(cons: seq<Con<D>>, off: nat): (cs: seq<Con<D>>)
    ensures |cs| == |cons| && forall c :: 0 <= c < |cons| ==> cs[c] == Con(ShiftedIds(cons[c].ids, off), cons[c].data)
  {
    if cons == [] then [] else Shifted(cons[..|cons| - 1], off) + [Con(ShiftedIds(cons[|cons| - 1].ids, off), cons[|cons| - 1].data)]
  }

  /** The parts one after another, each part's vertices renumbered past those before. */
  function Combined<V, D>(parts: seq<Mesh<V, D>>): Mesh<V, D> {
    if parts == [] then Mesh([], [], [], [])
    else
      var m, p := Combined(parts[..|parts| - 1]), parts[|parts| - 1];
      var off := |m.verts|;
      Mesh(m.verts + p.verts, m.tris + Shifted(p.tris, off), m.bends + Shifted(p.bends, off), m.attaches + Shifted(p.attaches, off))
  }

  method ShiftCons<D>(cons: seq<Con<D>>, off: nat) returns (cs: seq<Con<D>>)
    ensures cs == Shifted(cons, off)
  {
    cs := [];
    for c := 0 to |cons|
      invariant |cs| == c && forall d :: 0 <= d < c ==> cs[d] == Con(ShiftedIds(cons[d].ids, off), cons[d].data)
    {
      var ids: seq<nat> := [];
      for r := 0 to |cons[c].ids|
        invariant |ids| == r && forall q :: 0 <= q < r ==> ids[q] == cons[c].ids[q] + off
      {
        ids := ids + [cons[c].ids[r] + off];
      }
      assert ids == ShiftedIds(cons[c].ids, off);
      cs := cs + [Con(ids, cons[c].data)];
    }
  }

  method CombineMeshes<V, D>(parts: seq<Mesh<V, D>>) returns (m: Mesh<V, D>)
    ensures m == Combined(parts)
  {
    m := Mesh([], [], [], []);
    var voff := 0;
    for i := 0 to |parts|
      invariant m == Combined(parts[..i]) && voff == |m.verts|
    {
      assert parts[..i + 1][..i] == parts[..i];
      var p := parts[i];
      var tris := ShiftCons(p.tris, voff);
      var bends := ShiftCons(p.bends, voff);
      var attaches := ShiftCons(p.attaches, voff);
      m := Mesh(m.verts + p.verts, m.tris + tris, m.bends + bends, m.attaches + attaches);
      voff := voff + |p.verts|;
    }
    assert parts[..|parts|] == parts;
  }

  // --- the round trip ----------------------------------------------------------------------------------------------

  /** Where the islands put vertex v: after the earlier islands, in its own order. */
  function Moved(islandOf: seq<nat>): nat -> nat {
    (v: nat) => if v < |islandOf| then Slot(islandOf, v) else 0
  }

  function RenamedAll<D>(cons: seq<Con<D>>, f: nat -> nat): seq<Con<D>> {
    if cons == [] then [] else RenamedAll(cons[..|cons| - 1], f) + [RenamedCon(cons[|cons| - 1], f)]
  }

  /** The constraints of island i, or of the islands before it, under their final
      vertex numbers. */
  function Sorted<D>(cons: seq<Con<D>>, islandOf: seq<nat>, i: nat, before: bool): seq<Con<D>>
    requires AllWhole(islandOf, cons)
  {
    if cons == [] then []
    else
      var c := cons[|cons| - 1];
      assert AllWhole(islandOf, cons[..|cons| - 1]);
      assert Whole(islandOf, c.ids);
      Sorted(cons[..|cons| - 1], islandOf, i, before) +
      if (before && islandOf[c.ids[0]] < i) || (!before && islandOf[c.ids[0]] == i) then [RenamedCon(c, Moved(islandOf))] else []
  }

  /** An island's local numbers, past the earlier islands, are the final numbers. */
  lemma ShiftIsMove(islandOf: seq<nat>, ids: seq<nat>)
    requires Whole(islandOf, ids)
    ensures ShiftedIds(Renamed(ids, Local(islandOf)), Bucket(islandOf, islandOf[ids[0]])) == Renamed(ids, Moved(islandOf))
  {
    hide Places, Bucket, Renamed, ShiftedIds;
    var off := Bucket(islandOf, islandOf[ids[0]]);
    forall r | 0 <= r < |ids| ensures Local(islandOf)(ids[r]) + off == Moved(islandOf)(ids[r]) {
      assert islandOf[ids[r]] == islandOf[ids[0]];
    }
    assert |ShiftedIds(Renamed(ids, Local(islandOf)), off)| == |Renamed(ids, Moved(islandOf))|;
  }

  lemma {:induction false} ShiftedPart<D>(cons: seq<Con<D>>, islandOf: seq<nat>, i: nat)
    requires AllWhole(islandOf, cons)
    ensures Shifted(ConsIn(cons, islandOf, i), Bucket(islandOf, i)) == Sorted(cons, islandOf, i, false)
  {
    hide Bucket, Renamed, ShiftedIds, Local, Moved, Whole;
    if cons != [] {
      var n := |cons| - 1;
      assert AllWhole(islandOf, cons[..n]) && Whole(islandOf, cons[n].ids);
      ShiftedPart(cons[..n], islandOf, i);
      WholeIds(islandOf, cons[n].ids);
      if islandOf[cons[n].ids[0]] == i {
        ShiftIsMove(islandOf, cons[n].ids);
        var part, last := ConsIn(cons[..n], islandOf, i), RenamedCon(cons[n], Local(islandOf));
        assert (part + [last])[..|part|] == part;
      }
    }
  }

  lemma WholeIds(islandOf: seq<nat>, ids: seq<nat>)
    requires Whole(islandOf, ids)
    ensures |ids| > 0 && ids[0] < |islandOf|
  {
  }

  /** The islands before i + 1 hold what those before i and island i hold. */
  lemma {:induction false} SortedSplits<D>(cons: seq<Con<D>>, islandOf: seq<nat>, i: nat)
    requires AllWhole(islandOf, cons)
    ensures multiset(Sorted(cons, islandOf, i + 1, true)) ==
            multiset(Sorted(cons, islandOf, i, true)) + multiset(Sorted(cons, islandOf, i, false))
  {
    hide Whole, Moved;
    if cons != [] {
      var n := |cons| - 1;
      assert AllWhole(islandOf, cons[..n]) && Whole(islandOf, cons[n].ids);
      SortedSplits(cons[..n], islandOf, i);
    }
  }

  lemma {:induction false} SortedNone<D>(cons: seq<Con<D>>, islandOf: seq<nat>)
    requires AllWhole(islandOf, cons)
    ensures Sorted(cons, islandOf, 0, true) == []
  {
    hide Whole;
    if cons != [] {
      assert AllWhole(islandOf, cons[..|cons| - 1]) && Whole(islandOf, cons[|cons| - 1].ids);
      SortedNone(cons[..|cons| - 1], islandOf);
      WholeIds(islandOf, cons[|cons| - 1].ids);
      assert !(islandOf[cons[|cons| - 1].ids[0]] < 0);
    }
  }

  lemma {:induction false} SortedAll<D>(cons: seq<Con<D>>, islandOf: seq<nat>, nIsl: nat)
    requires AllWhole(islandOf, cons) && InRange(islandOf, nIsl)
    ensures Sorted(cons, islandOf, nIsl, true) == RenamedAll(cons, Moved(islandOf))
  {
    hide Whole, Moved;
    if cons != [] {
      var n := |cons| - 1;
      assert AllWhole(islandOf, cons[..n]) && Whole(islandOf, cons[n].ids);
      WholeIds(islandOf, cons[n].ids);
      SortedAll(cons[..n], islandOf, nIsl);
    }
  }

  ghost predicate AreIslands<V, D>(m: Mesh<V, D>, islandOf: seq<nat>, parts: seq<Mesh<V, D>>) {
    && |islandOf| == |m.verts| && AllWhole(islandOf, m.tris) && AllWhole(islandOf, m.bends) && AllWhole(islandOf, m.attaches)
    && forall i :: 0 <= i < |parts| ==> parts[i] == IslandMesh(m, islandOf, i)
  }

  /** The parts are the islands of the mesh, under some numbering. */
  ghost predicate SplitIntoIslands<V, D>(m: Mesh<V, D>, parts: seq<Mesh<V, D>>)
    requires ValidMesh(m)
  {
    exists islandOf :: AreIslands(m, islandOf, parts) && IsPartition(islandOf, |parts|, Graph(m))
  }

  /** The first n islands combined: the first n buckets of vertices and the constraints
      before island n. */
  lemma {:induction false} CombinedIslands<V, D>(m: Mesh<V, D>, islandOf: seq<nat>, parts: seq<Mesh<V, D>>, n: nat)
    requires AreIslands(m, islandOf, parts) && n <= |parts|
    ensures var c := Combined(parts[..n]);
            && |c.verts| == Bucket(islandOf, n)
            && multiset(c.tris) == multiset(Sorted(m.tris, islandOf, n, true))
            && multiset(c.bends) == multiset(Sorted(m.bends, islandOf, n, true))
            && multiset(c.attaches) == multiset(Sorted(m.attaches, islandOf, n, true))
  {
    hide Places, Sorted, ConsIn, AllWhole, Shifted;
    if n == 0 {
      SortedNone(m.tris, islandOf);
      SortedNone(m.bends, islandOf);
      SortedNone(m.attaches, islandOf);
    } else {
      var i := n - 1;
      CombinedIslands(m, islandOf, parts, i);
      assert parts[..n][..i] == parts[..i];
      ShiftedPart(m.tris, islandOf, i);
      ShiftedPart(m.bends, islandOf, i);
      ShiftedPart(m.attaches, islandOf, i);
      SortedSplits(m.tris, islandOf, i);
      SortedSplits(m.bends, islandOf, i);
      SortedSplits(m.attaches, islandOf, i);
    }
  }

  lemma {:induction false} CombinedVerts<V, D>(m: Mesh<V, D>, islandOf: seq<nat>, parts: seq<Mesh<V, D>>, n: nat, v: nat)
    requires AreIslands(m, islandOf, parts) && n <= |parts| && v < |m.verts| && islandOf[v] < n
    ensures Slot(islandOf, v) < |Combined(parts[..n]).verts| && Combined(parts[..n]).verts[Slot(islandOf, v)] == m.verts[v]
  {
    hide Places, ConsIn, AllWhole, Shifted, Bucket, Sorted;
    var i := n - 1;
    assert parts[..n][..i] == parts[..i];
    CombinedIslands(m, islandOf, parts, i);
    if islandOf[v] < i {
      CombinedVerts(m, islandOf, parts, i, v);
    } else {
      LocalPlace(islandOf, v);
    }
  }

  lemma LocalPlace(islandOf: seq<nat>, v: nat)
    requires v < |islandOf|
    ensures LocalOf(islandOf, v) < |Places(islandOf, islandOf[v], |islandOf|)|
    ensures Places(islandOf, islandOf[v], |islandOf|)[LocalOf(islandOf, v)] == v
  {
    PlacesKeep(islandOf, islandOf[v], v + 1, |islandOf|);
  }

  lemma {:induction false} PlacesKeep(keys: seq<nat>, v: nat, n: nat, m: nat)
    requires n <= m <= |keys|
    ensures Places(keys, v, n) <= Places(keys, v, m)
    decreases m
  {
    if n < m { PlacesKeep(keys, v, n, m - 1); }
  }

  /** combine_meshes of the islands is the mesh up to a renumbering of its vertices: one
      to one, onto, and the same for every constraint, each of which survives once. */
  lemma RoundTrip<V, D>(m: Mesh<V, D>, islandOf: seq<nat>, parts: seq<Mesh<V, D>>)
    requires AreIslands(m, islandOf, parts) && InRange(islandOf, |parts|)
    ensures var c := Combined(parts);
            && |c.verts| == |m.verts|
            && (forall v :: 0 <= v < |m.verts| ==> Slot(islandOf, v) < |m.verts| && c.verts[Slot(islandOf, v)] == m.verts[v])
            && multiset(c.tris) == multiset(RenamedAll(m.tris, Moved(islandOf)))
            && multiset(c.bends) == multiset(RenamedAll(m.bends, Moved(islandOf)))
            && multiset(c.attaches) == multiset(RenamedAll(m.attaches, Moved(islandOf)))
    ensures forall u, v :: 0 <= u < v < |m.verts| ==> Slot(islandOf, u) != Slot(islandOf, v)
  {
    hide Places, Bucket, Sorted, ConsIn, AllWhole, Shifted, Slot, IslandMesh, Combined, RenamedAll, Moved;
    var n := |parts|;
    assert parts[..n] == parts;
    CombinedIslands(m, islandOf, parts, n);
    BucketTotal(islandOf, n);
    SortedAll(m.tris, islandOf, n);
    SortedAll(m.bends, islandOf, n);
    SortedAll(m.attaches, islandOf, n);
    forall v | 0 <= v < |m.verts|
      ensures Slot(islandOf, v) < |m.verts| && Combined(parts).verts[Slot(islandOf, v)] == m.verts[v]
    {
      CombinedVerts(m, islandOf, parts, n, v);
    }
    forall u, v | 0 <= u < v < |m.verts| ensures Slot(islandOf, u) != Slot(islandOf, v) {
      SlotsApart(islandOf, u, v);
    }
  }

  lemma SlotsApart(islandOf: seq<nat>, u: nat, v: nat)
    requires u < v < |islandOf|
    ensures Slot(islandOf, u) != Slot(islandOf, v)
  {
    hide Places, Bucket;
    PlacesGrow(islandOf, islandOf[u], u, v);
    SlotFree(islandOf, v, islandOf[u], |Places(islandOf, islandOf[u], u)|);
  }
}
