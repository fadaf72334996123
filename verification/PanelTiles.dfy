/** cloth_grid: split_connected_panel, a panel cut into bands of x that share ghost
    vertices. */
module PanelTiles {
  import opened AvbdTopology
  import opened ClothIslands

  // --- bands of x ------------------------------------------------------------------------------

  /** The band of a coordinate: its share of the span, cut to a whole number and held
      below nTiles. */
  function Band(x: real, xmin: real, span: real, nTiles: nat): (t: nat)
    requires span > 0.0 && x >= xmin && nTiles > 0
    ensures t < nTiles
  {
    ShareNotNegative(x - xmin, span, nTiles as real);
    var t := ((x - xmin) / span * nTiles as real).Floor;
    if t >= nTiles then nTiles - 1 else t
  }

  lemma ShareNotNegative(d: real, span: real, n: real)
    requires span > 0.0 && d >= 0.0 && n >= 0.0
    ensures d / span * n >= 0.0
  {
    var q := d / span;
    assert q * span == d;
    if q < 0.0 { TimesNegative(q, span); }
    TimesNotNegative(q, n);
  }

  lemma TimesNegative(q: real, s: real)
    requires q < 0.0 && s > 0.0
    ensures q * s < 0.0
  {
  }

  lemma TimesNotNegative(q: real, s: real)
    requires q >= 0.0 && s >= 0.0
    ensures q * s >= 0.0
  {
  }

  ghost predicate Extent(xs: seq<real>, xmin: real, xmax: real) {
    && xmin in xs && xmax in xs && forall v :: 0 <= v < |xs| ==> xmin <= xs[v] <= xmax
  }

  /** Every vertex's tile: its band between the least and the greatest coordinate. */
  method TileOf(xs: seq<real>, nTiles: nat) returns (tileOf: seq<nat>, ghost xmin: real, ghost xmax: real)
    requires |xs| > 0 && nTiles > 0
    ensures |tileOf| == |xs| && InRange(tileOf, nTiles) && Extent(xs, xmin, xmax)
    ensures forall v :: 0 <= v < |xs| ==> tileOf[v] == Band(xs[v], xmin, if xmax > xmin then xmax - xmin else 1.0, nTiles)
  {
    var lo, hi := xs[0], xs[0];
    for v := 0 to |xs|
      invariant lo in xs && hi in xs && lo <= xs[0] <= hi
      invariant forall u :: 0 <= u < v ==> lo <= xs[u] <= hi
    {
      if xs[v] < lo { lo := xs[v]; }
      if xs[v] > hi { hi := xs[v]; }
    }
    var span := if hi > lo then hi - lo else 1.0;
    tileOf := [];
    for v := 0 to |xs|
      invariant |tileOf| == v && forall u :: 0 <= u < v ==> tileOf[u] < nTiles && tileOf[u] == Band(xs[u], lo, span, nTiles)
    {
      tileOf := tileOf + [Band(xs[v], lo, span, nTiles)];
    }
    xmin, xmax := lo, hi;
  }

  // --- ghosts --------------------------------------------------------------------------------------

  /** The constraint has a vertex the tile owns. */
  predicate Touches(tileOf: seq<nat>, ids: seq<nat>, t: nat) {
    exists r :: 0 <= r < |ids| && ids[r] < |tileOf| && tileOf[ids[r]] == t
  }

  /** gs with the constraint's first n vertices that are neither the tile's nor there yet. */
  function AddNew(gs: seq<nat>, ids: seq<nat>, tileOf: seq<nat>, t: nat, n: nat): seq<nat>
    requires n <= |ids|
  {
    if n == 0 then gs
    else
      var so, v := AddNew(gs, ids, tileOf, t, n - 1), ids[n - 1];
      if v < |tileOf| && tileOf[v] != t && v !in so then so + [v] else so
  }

  /** The tile's ghosts after the first n constraints, in the order they are met. */
  function Ghosts(cons: seq<seq<nat>>, tileOf: seq<nat>, t: nat, n: nat): seq<nat>
    requires n <= |cons|
  {
    if n == 0 then []
    else
      var gs := Ghosts(cons, tileOf, t, n - 1);
      if Touches(tileOf, cons[n - 1], t) then AddNew(gs, cons[n - 1], tileOf, t, |cons[n - 1]|) else gs
  }

  predicate NoRepeats(s: seq<nat>) {
    forall i, j :: 0 <= i < j < |s| ==> s[i] != s[j]
  }

  lemma {:induction false} AddNewHolds(gs: seq<nat>, ids: seq<nat>, tileOf: seq<nat>, t: nat, n: nat)
    requires n <= |ids| && NoRepeats(gs)
    ensures NoRepeats(AddNew(gs, ids, tileOf, t, n))
    ensures forall v :: v in AddNew(gs, ids, tileOf, t, n) <==>
              v in gs || (exists r :: 0 <= r < n && ids[r] == v && v < |tileOf| && tileOf[v] != t)
  {
    if n != 0 {
      AddNewHolds(gs, ids, tileOf, t, n - 1);
    }
  }

  /** The ghosts are exactly the vertices of other tiles that a touching constraint names,
      each once. */
  lemma {:induction false} GhostsExact(cons: seq<seq<nat>>, tileOf: seq<nat>, t: nat, n: nat)
    requires n <= |cons|
    ensures NoRepeats(Ghosts(cons, tileOf, t, n))
    ensures forall v :: v in Ghosts(cons, tileOf, t, n) <==>
              exists c :: 0 <= c < n && Touches(tileOf, cons[c], t) && v in cons[c] && v < |tileOf| && tileOf[v] != t
  {
    hide Touches;
    if n != 0 {
      GhostsExact(cons, tileOf, t, n - 1);
      AddNewHolds(Ghosts(cons, tileOf, t, n - 1), cons[n - 1], tileOf, t, |cons[n - 1]|);
    }
  }

  /** A tile's vertices: its own in order, then its ghosts. */
  function GlobalId(cons: seq<seq<nat>>, tileOf: seq<nat>, t: nat): seq<nat> {
    Places(tileOf, t, |tileOf|) + Ghosts(cons, tileOf, t, |cons|)
  }

  /** Every vertex is owned by one tile only, no tile lists a vertex twice, and a
      constraint that touches the tile has all its vertices there. */
  lemma GlobalIdHolds(cons: seq<seq<nat>>, tileOf: seq<nat>, t: nat)
    requires forall c, r :: 0 <= c < |cons| && 0 <= r < |cons[c]| ==> cons[c][r] < |tileOf|
    ensures NoRepeats(GlobalId(cons, tileOf, t))
    ensures forall k :: 0 <= k < |GlobalId(cons, tileOf, t)| ==> GlobalId(cons, tileOf, t)[k] < |tileOf|
    ensures forall v :: 0 <= v < |tileOf| ==> (v in Places(tileOf, t, |tileOf|) <==> tileOf[v] == t)
    ensures forall c, r :: 0 <= c < |cons| && Touches(tileOf, cons[c], t) && 0 <= r < |cons[c]| ==> cons[c][r] in GlobalId(cons, tileOf, t)
  {
    hide Touches, Places, Ghosts;
    PlacesExact(tileOf, t, |tileOf|);
    GhostsExact(cons, tileOf, t, |cons|);
    var own, gs := Places(tileOf, t, |tileOf|), Ghosts(cons, tileOf, t, |cons|);
    forall c, r | 0 <= c < |cons| && Touches(tileOf, cons[c], t) && 0 <= r < |cons[c]| ensures cons[c][r] in own + gs {
      if tileOf[cons[c][r]] != t { assert cons[c][r] in gs; }
    }
    forall k | 0 <= k < |own + gs| ensures (own + gs)[k] < |tileOf| {
      if k >= |own| { assert (own + gs)[k] in gs; }
    }
    forall i, j | 0 <= i < j < |own + gs| ensures (own + gs)[i] != (own + gs)[j] {
      if i < |own| && j >= |own| {
        assert (own + gs)[j] in gs;
      }
    }
  }

  // --- touching ------------------------------------------------------------------------------------

  /** What each tile has touched: its own vertices, its ghosts, and a mark per vertex. */
  datatype Lists = Lists(owned: seq<seq<nat>>, ghosts: seq<seq<nat>>, seen: seq<seq<bool>>)

  /** A tile's lists: its own vertices are complete, and the marks are its members. */
  ghost predicate TileOk(l: Lists, tileOf: seq<nat>, t: nat)
    requires t < |l.owned| == |l.ghosts| == |l.seen|
  {
    && l.owned[t] == Places(tileOf, t, |tileOf|) && |l.seen[t]| == |tileOf|
    && forall v :: 0 <= v < |tileOf| ==> (l.seen[t][v] <==> v in l.owned[t] || v in l.ghosts[t])
  }

  ghost predicate ListsOk(l: Lists, tileOf: seq<nat>, nTiles: nat) {
    && |l.owned| == |l.ghosts| == |l.seen| == nTiles
    && forall t :: 0 <= t < nTiles ==> TileOk(l, tileOf, t)
  }

  lemma OwnedExactly(tileOf: seq<nat>, t: nat, v: nat)
    requires v < |tileOf|
    ensures v in Places(tileOf, t, |tileOf|) <==> tileOf[v] == t
  {
    PlacesExact(tileOf, t, |tileOf|);
  }

  /** One tile touches one vertex it does not own, or one it does. */
  method Touch(l: Lists, tileOf: seq<nat>, nTiles: nat, t: nat, v: nat) returns (l': Lists)
    requires ListsOk(l, tileOf, nTiles) && t < nTiles && v < |tileOf|
    ensures ListsOk(l', tileOf, nTiles)
    ensures forall u :: 0 <= u < nTiles && u != t ==> l'.ghosts[u] == l.ghosts[u]
    ensures l'.ghosts[t] == if tileOf[v] != t && v !in l.ghosts[t] then l.ghosts[t] + [v] else l.ghosts[t]
  {
    hide Places;
    OwnedExactly(tileOf, t, v);
    assert TileOk(l, tileOf, t);
    if l.seen[t][v] { return l; }
    l' := l.(seen := l.seen[t := l.seen[t][v := true]], ghosts := l.ghosts[t := l.ghosts[t] + [v]]);
    forall u | 0 <= u < nTiles ensures TileOk(l', tileOf, u) {
      assert TileOk(l, tileOf, u);
    }
  }

  /** The tiles the constraint has vertices in, each once. */
  method Bands(tileOf: seq<nat>, ids: seq<nat>) returns (bands: seq<nat>)
    requires forall r :: 0 <= r < |ids| ==> ids[r] < |tileOf|
    ensures NoRepeats(bands) && forall t :: t in bands <==> Touches(tileOf, ids, t)
  {
    bands := [];
    for r := 0 to |ids|
      invariant NoRepeats(bands)
      invariant forall t :: t in bands <==> exists q :: 0 <= q < r && tileOf[ids[q]] == t
    {
      var t := tileOf[ids[r]];
      var have := false;
      for j := 0 to |bands|
        invariant have <==> t in bands[..j]
      {
        if bands[j] == t { have := true; }
      }
      assert bands[..|bands|] == bands;
      if !have { bands := bands + [t]; }
    }
  }

  /** Every tile the constraint touches takes its foreign vertices as ghosts. */
  method TouchConstraint(l: Lists, tileOf: seq<nat>, nTiles: nat, ids: seq<nat>) returns (l': Lists)
    requires ListsOk(l, tileOf, nTiles) && InRange(tileOf, nTiles) && forall r :: 0 <= r < |ids| ==> ids[r] < |tileOf|
    ensures ListsOk(l', tileOf, nTiles) && |l'.ghosts| == nTiles
    ensures forall t :: 0 <= t < nTiles ==>
              l'.ghosts[t] == if Touches(tileOf, ids, t) then AddNew(l.ghosts[t], ids, tileOf, t, |ids|) else l.ghosts[t]
  {
    hide Places, TileOk, Touches;
    var bands := Bands(tileOf, ids);
    l' := l;
    for j := 0 to |bands|
      invariant ListsOk(l', tileOf, nTiles)
      invariant forall t :: 0 <= t < nTiles ==>
                  l'.ghosts[t] == if t in bands[..j] then AddNew(l.ghosts[t], ids, tileOf, t, |ids|) else l.ghosts[t]
    {
      var t := bands[j];
      BandInRange(tileOf, nTiles, ids, t);
      assert t !in bands[..j];
      ghost var before := l';
      for r := 0 to |ids|
        invariant ListsOk(l', tileOf, nTiles)
        invariant forall u :: 0 <= u < nTiles && u != t ==> l'.ghosts[u] == before.ghosts[u]
        invariant l'.ghosts[t] == AddNew(before.ghosts[t], ids, tileOf, t, r)
      {
        l' := Touch(l', tileOf, nTiles, t, ids[r]);
      }
      assert bands[..j + 1] == bands[..j] + [t];
    }
    assert bands[..|bands|] == bands;
  }

  lemma BandInRange(tileOf: seq<nat>, nTiles: nat, ids: seq<nat>, t: nat)
    requires InRange(tileOf, nTiles) && Touches(tileOf, ids, t)
    ensures t < nTiles
  {
  }

  /** Every vertex is touched by its own tile first. */
  method OwnLists(tileOf: seq<nat>, nTiles: nat) returns (l: Lists)
    requires InRange(tileOf, nTiles)
    ensures ListsOk(l, tileOf, nTiles) && |l.ghosts| == nTiles && forall t :: 0 <= t < nTiles ==> l.ghosts[t] == []
  {
    var nV := |tileOf|;
    var owned: seq<seq<nat>> := seq(nTiles, t => []);
    var seen: seq<seq<bool>> := seq(nTiles, t => seq(nV, v => false));
    for v := 0 to nV
      invariant |owned| == |seen| == nTiles
      invariant forall t :: 0 <= t < nTiles ==> owned[t] == Places(tileOf, t, v) && |seen[t]| == nV
      invariant forall t, u :: 0 <= t < nTiles && 0 <= u < nV ==> (seen[t][u] <==> u < v && tileOf[u] == t)
    {
      var t := tileOf[v];
      seen := seen[t := seen[t][v := true]];
      owned := owned[t := owned[t] + [v]];
    }
    l := Lists(owned, seq(nTiles, t => []), seen);
    forall t | 0 <= t < nTiles ensures TileOk(l, tileOf, t) {
      PlacesExact(tileOf, t, nV);
    }
  }

  /** The vertex ids of the constraints that pull ghosts in. */
  function IdsOf<D>(cons: seq<Con<D>>): (ids: seq<seq<nat>>)
    ensures |ids| == |cons| && forall c :: 0 <= c < |cons| ==> ids[c] == cons[c].ids
  {
    if cons == [] then [] else IdsOf(cons[..|cons| - 1]) + [cons[|cons| - 1].ids]
  }

  /** All triangles, then all bending stencils. */
  function Pulling<V, D>(m: Mesh<V, D>): seq<seq<nat>> {
    IdsOf(m.tris) + IdsOf(m.bends)
  }

  method TouchAll<V, D>(m: Mesh<V, D>, tileOf: seq<nat>, nTiles: nat) returns (l: Lists)
    requires ValidMesh(m) && |tileOf| == |m.verts| && InRange(tileOf, nTiles)
    ensures |l.owned| == |l.ghosts| == nTiles
    ensures forall t :: 0 <= t < nTiles ==> l.owned[t] == Places(tileOf, t, |tileOf|) && l.ghosts[t] == Ghosts(Pulling(m), tileOf, t, |Pulling(m)|)
  {
    hide ListsOk, Touches;
    l := OwnLists(tileOf, nTiles);
    ghost var cons := Pulling(m);
    for c := 0 to |m.tris| + |m.bends|
      invariant ListsOk(l, tileOf, nTiles) && |l.ghosts| == nTiles
      invariant forall t :: 0 <= t < nTiles ==> l.ghosts[t] == Ghosts(cons, tileOf, t, c)
    {
      var ids := if c < |m.tris| then m.tris[c].ids else m.bends[c - |m.tris|].ids;
      assert ids == cons[c];
      l := TouchConstraint(l, tileOf, nTiles, ids);
    }
    OkOwned(l, tileOf, nTiles);
  }

  lemma OkOwned(l: Lists, tileOf: seq<nat>, nTiles: nat)
    requires ListsOk(l, tileOf, nTiles)
    ensures |l.owned| == |l.ghosts| == nTiles && forall t :: 0 <= t < nTiles ==> l.owned[t] == Places(tileOf, t, |tileOf|)
  {
    forall t | 0 <= t < nTiles ensures l.owned[t] == Places(tileOf, t, |tileOf|) { assert TileOk(l, tileOf, t); }
  }

  // --- the tiles' meshes --------------------------------------------------------------------------------

  /** A tile: its mesh in local numbers, how many of its vertices it owns, and the panel's
      number of each. */
  datatype Tile<V, D> = Tile(mesh: Mesh<V, D>, nOwned: nat, globalId: seq<nat>)

  /** Where v stands in a list that has it. */
  function IndexOf(s: seq<nat>, v: nat): (k: nat)
    ensures v in s ==> k < |s| && s[k] == v
  {
    if s == [] || s[0] == v then 0 else 1 + IndexOf(s[1..], v)
  }

  function LocalIn(globalId: seq<nat>): nat -> nat { (v: nat) => IndexOf(globalId, v) }

  function GlobalIn(globalId: seq<nat>): nat -> nat { (k: nat) => if k < |globalId| then globalId[k] else 0 }

  /** The constraints that touch the tile, in order. */
  function Selected<D>(cons: seq<Con<D>>, tileOf: seq<nat>, t: nat): seq<Con<D>> {
    if cons == [] then []
    else
      Selected(cons[..|cons| - 1], tileOf, t) + if Touches(tileOf, cons[|cons| - 1].ids, t) then [cons[|cons| - 1]] else []
  }

  predicate Covers<D>(globalId: seq<nat>, cons: seq<Con<D>>) {
    forall c, r :: 0 <= c < |cons| && 0 <= r < |cons[c].ids| ==> cons[c].ids[r] in globalId
  }

  /** The tile's numbers, mapped back through globalId, restore every constraint. */
  lemma {:induction false} BackAndForth<D>(globalId: seq<nat>, cons: seq<Con<D>>)
    requires Covers(globalId, cons)
    ensures RenamedAll(RenamedAll(cons, LocalIn(globalId)), GlobalIn(globalId)) == cons
  {
    hide IndexOf, RenamedCon, LocalIn, GlobalIn;
    if cons != [] {
      var n := |cons| - 1;
      BackAndForth(globalId, cons[..n]);
      BackOne(globalId, cons[n]);
      RenamedAllAppend(RenamedAll(cons[..n], LocalIn(globalId)), RenamedCon(cons[n], LocalIn(globalId)), GlobalIn(globalId));
    }
  }

  lemma BackOne<D>(globalId: seq<nat>, c: Con<D>)
    requires forall r :: 0 <= r < |c.ids| ==> c.ids[r] in globalId
    ensures RenamedCon(RenamedCon(c, LocalIn(globalId)), GlobalIn(globalId)) == c
  {
    hide IndexOf, Renamed;
    var back := Renamed(Renamed(c.ids, LocalIn(globalId)), GlobalIn(globalId));
    forall r | 0 <= r < |c.ids| ensures back[r] == c.ids[r] {
      assert c.ids[r] in globalId;
    }
    assert back == c.ids;
  }

  lemma RenamedAllAppend<D>(cons: seq<Con<D>>, c: Con<D>, f: nat -> nat)
    ensures RenamedAll(cons + [c], f) == RenamedAll(cons, f) + [RenamedCon(c, f)]
  {
    assert (cons + [c])[..|cons|] == cons;
  }

  lemma NextSelected<D>(cons: seq<Con<D>>, tileOf: seq<nat>, t: nat, c: nat)
    requires c < |cons|
    ensures Selected(cons[..c + 1], tileOf, t) ==
            if Touches(tileOf, cons[c].ids, t) then Selected(cons[..c], tileOf, t) + [cons[c]] else Selected(cons[..c], tileOf, t)
  {
    hide Touches;
    assert cons[..c + 1][..c] == cons[..c];
  }

  lemma {:induction false} SelectedCovered<D>(cons: seq<Con<D>>, tileOf: seq<nat>, t: nat, globalId: seq<nat>)
    requires forall c, r :: 0 <= c < |cons| && Touches(tileOf, cons[c].ids, t) && 0 <= r < |cons[c].ids| ==> cons[c].ids[r] in globalId
    ensures Covers(globalId, Selected(cons, tileOf, t))
  {
    hide Touches;
    if cons != [] { SelectedCovered(cons[..|cons| - 1], tileOf, t, globalId); }
  }

  /** localOf as the source fills it: a vertex's place in globalId, -1 elsewhere. */
  ghost predicate Locates(localOf: seq<int>, globalId: seq<nat>, nV: nat) {
    |localOf| == nV && forall v :: 0 <= v < nV ==> localOf[v] == if v in globalId then IndexOf(globalId, v) else -1
  }

  lemma {:induction false} IndexAppend(s: seq<nat>, g: nat, v: nat)
    requires g !in s
    ensures v in s ==> IndexOf(s + [g], v) == IndexOf(s, v)
    ensures IndexOf(s + [g], g) == |s|
  {
    if s != [] {
      assert (s + [g])[1..] == s[1..] + [g];
      if s[0] != v { IndexAppend(s[1..], g, v); } else { IndexAppend(s[1..], g, g); }
    }
  }

  method Locate(globalId: seq<nat>, nV: nat) returns (localOf: seq<int>)
    requires NoRepeats(globalId) && forall k :: 0 <= k < |globalId| ==> globalId[k] < nV
    ensures Locates(localOf, globalId, nV)
  {
    hide IndexOf;
    localOf := seq(nV, v => -1);
    for k := 0 to |globalId|
      invariant Locates(localOf, globalId[..k], nV)
    {
      var g := globalId[k];
      assert globalId[..k + 1] == globalId[..k] + [g] && g !in globalId[..k];
      forall v: nat | v in globalId[..k] ensures IndexOf(globalId[..k] + [g], v) == IndexOf(globalId[..k], v) {
        IndexAppend(globalId[..k], g, v);
      }
      IndexAppend(globalId[..k], g, g);
      localOf := localOf[g := k];
    }
    assert globalId[..|globalId|] == globalId;
  }

  method Keep<D>(cons: seq<Con<D>>, tileOf: seq<nat>, t: nat, ghost globalId: seq<nat>, localOf: seq<int>) returns (kept: seq<Con<D>>)
    requires Locates(localOf, globalId, |tileOf|)
    requires forall c, r :: 0 <= c < |cons| && 0 <= r < |cons[c].ids| ==> cons[c].ids[r] < |tileOf|
    requires forall c, r :: 0 <= c < |cons| && Touches(tileOf, cons[c].ids, t) && 0 <= r < |cons[c].ids| ==> cons[c].ids[r] in globalId
    ensures kept == RenamedAll(Selected(cons, tileOf, t), LocalIn(globalId))
  {
    hide Touches, IndexOf, Selected, RenamedAll;
    NoneKept(cons, tileOf, t, LocalIn(globalId));
    kept := [];
    for c := 0 to |cons|
      invariant kept == RenamedAll(Selected(cons[..c], tileOf, t), LocalIn(globalId))
    {
      NextSelected(cons, tileOf, t, c);
      var inTile := InTile(tileOf, cons[c].ids, t);
      if inTile {
        var ids: seq<nat> := [];
        for r := 0 to |cons[c].ids|
          invariant |ids| == r && forall q :: 0 <= q < r ==> ids[q] == LocalIn(globalId)(cons[c].ids[q])
        {
          assert cons[c].ids[r] in globalId;
          ids := ids + [localOf[cons[c].ids[r]]];
        }
        assert ids == Renamed(cons[c].ids, LocalIn(globalId));
        RenamedAllAppend(Selected(cons[..c], tileOf, t), cons[c], LocalIn(globalId));
        kept := kept + [Con(ids, cons[c].data)];
      }
    }
    assert cons[..|cons|] == cons;
  }

  lemma NoneKept<D>(cons: seq<Con<D>>, tileOf: seq<nat>, t: nat, f: nat -> nat)
    ensures RenamedAll(Selected(cons[..0], tileOf, t), f) == []
  {
  }

  method InTile(tileOf: seq<nat>, ids: seq<nat>, t: nat) returns (yes: bool)
    requires forall r :: 0 <= r < |ids| ==> ids[r] < |tileOf|
    ensures yes == Touches(tileOf, ids, t)
  {
    for r := 0 to |ids|
      invariant forall q :: 0 <= q < r ==> tileOf[ids[q]] != t
    {
      if tileOf[ids[r]] == t { return true; }
    }
    return false;
  }

  /** What a tile is: its own vertices then its ghosts, and every constraint with a vertex
      it owns, in local numbers. */
  function TileMesh<V, D>(m: Mesh<V, D>, tileOf: seq<nat>, t: nat): (tile: Tile<V, D>)
    requires |tileOf| == |m.verts| && ValidMesh(m)
  {
    PullingInRange(m);
    GlobalIdHolds(Pulling(m), tileOf, t);
    var gid := GlobalId(Pulling(m), tileOf, t);
    Tile(Mesh(Picked(m.verts, gid),
              RenamedAll(Selected(m.tris, tileOf, t), LocalIn(gid)),
              RenamedAll(Selected(m.bends, tileOf, t), LocalIn(gid)),
              RenamedAll(Selected(m.attaches, tileOf, t), LocalIn(gid))),
         |Places(tileOf, t, |tileOf|)|, gid)
  }

  lemma PullingInRange<V, D>(m: Mesh<V, D>)
    requires ValidMesh(m)
    ensures forall c, r :: 0 <= c < |Pulling(m)| && 0 <= r < |Pulling(m)[c]| ==> Pulling(m)[c][r] < |m.verts|
  {
  }

  /** The constraints that touch a tile have all their vertices there. */
  lemma TouchingCovered<V, D>(m: Mesh<V, D>, tileOf: seq<nat>, t: nat)
    requires |tileOf| == |m.verts| && ValidMesh(m)
    ensures var gid := GlobalId(Pulling(m), tileOf, t);
            && (forall c, r :: 0 <= c < |m.tris| && Touches(tileOf, m.tris[c].ids, t) && 0 <= r < |m.tris[c].ids| ==> m.tris[c].ids[r] in gid)
            && (forall c, r :: 0 <= c < |m.bends| && Touches(tileOf, m.bends[c].ids, t) && 0 <= r < |m.bends[c].ids| ==> m.bends[c].ids[r] in gid)
            && (forall c, r :: 0 <= c < |m.attaches| && Touches(tileOf, m.attaches[c].ids, t) && 0 <= r < |m.attaches[c].ids| ==> m.attaches[c].ids[r] in gid)
  {
    hide Touches, GlobalId, Places;
    var cons, gid := Pulling(m), GlobalId(Pulling(m), tileOf, t);
    PullingInRange(m);
    GlobalIdHolds(cons, tileOf, t);
    forall c, r | 0 <= c < |m.tris| && Touches(tileOf, m.tris[c].ids, t) && 0 <= r < |m.tris[c].ids| ensures m.tris[c].ids[r] in gid {
      assert cons[c] == m.tris[c].ids;
    }
    forall c, r | 0 <= c < |m.bends| && Touches(tileOf, m.bends[c].ids, t) && 0 <= r < |m.bends[c].ids| ensures m.bends[c].ids[r] in gid {
      assert cons[|m.tris| + c] == m.bends[c].ids;
    }
    forall c, r | 0 <= c < |m.attaches| && Touches(tileOf, m.attaches[c].ids, t) && 0 <= r < |m.attaches[c].ids| ensures m.attaches[c].ids[r] in gid {
      OwnVertex(cons, tileOf, t, m.attaches[c].ids);
    }
  }

  lemma OwnVertex(cons: seq<seq<nat>>, tileOf: seq<nat>, t: nat, ids: seq<nat>)
    requires |ids| == 1 && Touches(tileOf, ids, t)
    ensures ids[0] in GlobalId(cons, tileOf, t)
  {
    PlacesExact(tileOf, t, |tileOf|);
  }

  /** Mapped back through globalId, a tile's constraints are the panel's that touch it. */
  lemma TileRestores<V, D>(m: Mesh<V, D>, tileOf: seq<nat>, t: nat)
    requires |tileOf| == |m.verts| && ValidMesh(m)
    ensures var tile := TileMesh(m, tileOf, t);
            && RenamedAll(tile.mesh.tris, GlobalIn(tile.globalId)) == Selected(m.tris, tileOf, t)
            && RenamedAll(tile.mesh.bends, GlobalIn(tile.globalId)) == Selected(m.bends, tileOf, t)
            && RenamedAll(tile.mesh.attaches, GlobalIn(tile.globalId)) == Selected(m.attaches, tileOf, t)
            && tile.globalId[..tile.nOwned] == Places(tileOf, t, |tileOf|)
            && NoRepeats(tile.globalId)
  {
    hide Touches, Selected, RenamedAll, Places, Ghosts, Picked;
    var gid := GlobalId(Pulling(m), tileOf, t);
    PullingInRange(m);
    GlobalIdHolds(Pulling(m), tileOf, t);
    TouchingCovered(m, tileOf, t);
    SelectedCovered(m.tris, tileOf, t, gid);
    SelectedCovered(m.bends, tileOf, t, gid);
    SelectedCovered(m.attaches, tileOf, t, gid);
    BackAndForth(gid, Selected(m.tris, tileOf, t));
    BackAndForth(gid, Selected(m.bends, tileOf, t));
    BackAndForth(gid, Selected(m.attaches, tileOf, t));
  }

  method BuildTile<V, D>(m: Mesh<V, D>, tileOf: seq<nat>, t: nat, owned: seq<nat>, ghosts: seq<nat>) returns (tile: Tile<V, D>)
    requires |tileOf| == |m.verts| && ValidMesh(m)
    requires owned == Places(tileOf, t, |tileOf|) && ghosts == Ghosts(Pulling(m), tileOf, t, |Pulling(m)|)
    ensures tile == TileMesh(m, tileOf, t)
  {
    hide Touches, Selected, RenamedAll, Places, Ghosts;
    PullingInRange(m);
    GlobalIdHolds(Pulling(m), tileOf, t);
    TouchingCovered(m, tileOf, t);
    var gid := owned + ghosts;
    var localOf := Locate(gid, |tileOf|);
    var verts: seq<V> := [];
    for k := 0 to |gid|
      invariant |verts| == k && forall j :: 0 <= j < k ==> verts[j] == m.verts[gid[j]]
    {
      verts := verts + [m.verts[gid[k]]];
    }
    var tris := Keep(m.tris, tileOf, t, gid, localOf);
    var bends := Keep(m.bends, tileOf, t, gid, localOf);
    var attaches := Keep(m.attaches, tileOf, t, gid, localOf);
    tile := Tile(Mesh(verts, tris, bends, attaches), |owned|, gid);
    assert verts == Picked(m.verts, gid);
  }

  method SplitConnectedPanel<V, D>(m: Mesh<V, D>, xs: seq<real>, nTiles: nat) returns (tiles: seq<Tile<V, D>>, ghost tileOf: seq<nat>)
    requires ValidMesh(m) && |xs| == |m.verts| > 0 && nTiles > 0
    ensures |tiles| == nTiles && |tileOf| == |m.verts| && InRange(tileOf, nTiles)
    ensures forall t :: 0 <= t < nTiles ==> tiles[t] == TileMesh(m, tileOf, t)
  {
    hide TileMesh, Ghosts, Places, Pulling;
    var of;
    ghost var xmin, xmax;
    of, xmin, xmax := TileOf(xs, nTiles);
    tileOf := of;
    var l := TouchAll(m, of, nTiles);
    tiles := [];
    for t := 0 to nTiles
      invariant |tiles| == t && forall u :: 0 <= u < t ==> tiles[u] == TileMesh(m, tileOf, u)
    {
      var tile := BuildTile(m, of, t, l.owned[t], l.ghosts[t]);
      tiles := tiles + [tile];
    }
  }
}
