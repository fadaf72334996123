/** AvbdCpu: one iteration solves the vertices colour by colour, each colour as one
    batch of kernels. Separated colours make that a Gauss-Seidel sweep. */
module AvbdSweep {
  import opened AvbdTopology
  import opened AvbdColoring

  /** nCon constraints of K vertices each. */
  datatype Family = Family(K: nat, nCon: nat, conIdx: seq<nat>)

  predicate ValidFamily(fam: Family, nV: nat) {
    fam.K > 0 && |fam.conIdx| == fam.K * fam.nCon && InRange(fam.conIdx, nV)
  }

  predicate ValidFamilies(fams: seq<Family>, nV: nat) {
    forall f :: 0 <= f < |fams| ==> ValidFamily(fams[f], nV)
  }

  /** The kernels as functions of what they read: P is a position, F a vertex's
      gradient and Hessian scratch, G a constraint's gradient and Hessian. */
  datatype Physics<!P, !F, !G> = Physics(
    init: (nat, P) -> F,
    force: (nat, nat, seq<P>) -> G,
    gather: (nat, F, G, nat) -> F,
    solve: (F, P) -> P,
    zeroF: F, zeroG: G)

  // --- what solving one vertex means ------------------------------------------------

  lemma RowInside(fam: Family, nV: nat, c: nat)
    requires ValidFamily(fam, nV) && c < fam.nCon
    ensures fam.K * c + fam.K <= |fam.conIdx|
  {
    RowFits(fam.K, c, fam.nCon);
  }

  function At<P>(pos: seq<P>, vs: seq<nat>): (xs: seq<P>)
    requires forall i :: 0 <= i < |vs| ==> vs[i] < |pos|
    ensures |xs| == |vs| && forall i :: 0 <= i < |vs| ==> xs[i] == pos[vs[i]]
  {
    if vs == [] then [] else At(pos, vs[..|vs| - 1]) + [pos[vs[|vs| - 1]]]
  }

  /** Constraint c's gradient at the given positions. */
  function ForceOn<P, F, G>(ph: Physics<P, F, G>, f: nat, fam: Family, c: nat, pos: seq<P>): G
    requires ValidFamily(fam, |pos|) && c < fam.nCon
  {
    RowInside(fam, |pos|, c);
    ph.force(f, c, At(pos, fam.conIdx[fam.K * c..fam.K * c + fam.K]))
  }

  lemma PlaceSplits(fam: Family, nV: nat, p: nat)
    requires ValidFamily(fam, nV) && p < |fam.conIdx|
    ensures p / fam.K < fam.nCon && fam.K * (p / fam.K) + p % fam.K == p && p % fam.K < fam.K
  {
    if p / fam.K >= fam.nCon {
      LessTimes(fam.K, fam.nCon, p / fam.K);
    }
  }

  lemma LessTimes(K: nat, a: nat, b: nat)
    requires a <= b
    ensures K * a <= K * b
  {
  }

  /** acc with the gradients of the constraints at v's first n places added, in
      constraint order, by the role v plays in each. */
  function Gathered<P, F, G>(ph: Physics<P, F, G>, f: nat, fam: Family, pos: seq<P>, v: nat, n: nat, acc: F): F
    requires ValidFamily(fam, |pos|) && n <= |Places(fam.conIdx, v, |fam.conIdx|)|
  {
    if n == 0 then acc
    else
      var p := Places(fam.conIdx, v, |fam.conIdx|)[n - 1];
      PlaceSplits(fam, |pos|, p);
      ph.gather(f, Gathered(ph, f, fam, pos, v, n - 1, acc), ForceOn(ph, f, fam, p / fam.K, pos), p % fam.K)
  }

  /** v's scratch after the init kernel and the first n families' gathers. */
  function Scratch<P, F, G>(ph: Physics<P, F, G>, fams: seq<Family>, n: nat, pos: seq<P>, v: nat): F
    requires ValidFamilies(fams, |pos|) && n <= |fams| && v < |pos|
  {
    if n == 0 then ph.init(v, pos[v])
    else Gathered(ph, n - 1, fams[n - 1], pos, v, |Places(fams[n - 1].conIdx, v, |fams[n - 1].conIdx|)|,
                  Scratch(ph, fams, n - 1, pos, v))
  }

  /** Vertex v's new position when it alone is solved against the given positions. */
  function Relax<P, F, G>(ph: Physics<P, F, G>, fams: seq<Family>, pos: seq<P>, v: nat): P
    requires ValidFamilies(fams, |pos|) && v < |pos|
  {
    ph.solve(Scratch(ph, fams, |fams|, pos, v), pos[v])
  }

  /** The vertices solved one at a time in the order perm gives. */
  function GaussSeidel<P, F, G>(ph: Physics<P, F, G>, fams: seq<Family>, pos: seq<P>, perm: seq<nat>, n: nat): (r: seq<P>)
    requires ValidFamilies(fams, |pos|) && n <= |perm| && Distinct(perm, |pos|)
    ensures |r| == |pos|
  {
    if n == 0 then pos
    else
      var q := GaussSeidel(ph, fams, pos, perm, n - 1);
      q[perm[n - 1] := Relax(ph, fams, q, perm[n - 1])]
  }

  // --- what a colour pass means ---------------------------------------------------

  predicate Listed(perm: seq<nat>, lo: nat, hi: nat, v: nat) {
    exists i :: lo <= i < hi && i < |perm| && perm[i] == v
  }

  /** Entries lo..hi of perm, all solved against the same positions. */
  function Batch<P, F, G>(ph: Physics<P, F, G>, fams: seq<Family>, pos: seq<P>, perm: seq<nat>, lo: nat, hi: nat): (r: seq<P>)
    requires ValidFamilies(fams, |pos|) && lo <= hi <= |perm| && Distinct(perm, |pos|)
    ensures |r| == |pos|
    ensures forall v :: 0 <= v < |pos| && !Listed(perm, lo, hi, v) ==> r[v] == pos[v]
    ensures forall i :: lo <= i < hi ==> r[perm[i]] == Relax(ph, fams, pos, perm[i])
  {
    if lo == hi then pos
    else
      var q := Batch(ph, fams, pos, perm, lo, hi - 1);
      q[perm[hi - 1] := Relax(ph, fams, pos, perm[hi - 1])]
  }

  /** The first k colours, batch after batch. */
  function Sweep<P, F, G>(ph: Physics<P, F, G>, fams: seq<Family>, pos: seq<P>, perm: seq<nat>, offsets: seq<nat>, k: nat): (r: seq<P>)
    requires ValidFamilies(fams, |pos|) && Distinct(perm, |pos|) && Tiles(offsets, |perm|) && k < |offsets|
    ensures |r| == |pos|
  {
    if k == 0 then pos
    else
      Batch(ph, fams, Sweep(ph, fams, pos, perm, offsets, k - 1), perm, offsets[k - 1], offsets[k])
  }

  // --- separated colours: the sweep is Gauss-Seidel -------------------------------------

  /** No constraint of any family has both u and v. */
  ghost predicate Apart(fams: seq<Family>, u: nat, v: nat) {
    forall f :: 0 <= f < |fams| ==> !Couples(fams[f].conIdx, fams[f].K, fams[f].nCon, u, v)
  }

  /** The positions differ only at vertices that share no constraint with v. */
  ghost predicate SameFor<P(!new)>(fams: seq<Family>, pos: seq<P>, pos': seq<P>, v: nat) {
    && |pos| == |pos'| && v < |pos| && pos[v] == pos'[v]
    && forall u :: 0 <= u < |pos| && pos[u] != pos'[u] ==> Apart(fams, u, v)
  }

  lemma ForceAgrees<P(!new), F, G>(ph: Physics<P, F, G>, fams: seq<Family>, f: nat, pos: seq<P>, pos': seq<P>, v: nat, p: nat)
    requires ValidFamilies(fams, |pos|) && f < |fams| && SameFor(fams, pos, pos', v)
    requires p < |fams[f].conIdx| && fams[f].conIdx[p] == v
    ensures p / fams[f].K < fams[f].nCon
    ensures ForceOn(ph, f, fams[f], p / fams[f].K, pos) == ForceOn(ph, f, fams[f], p / fams[f].K, pos')
  {
    var fam := fams[f];
    PlaceSplits(fam, |pos|, p);
    var c, r := p / fam.K, p % fam.K;
    RowInside(fam, |pos|, c);
    var base := fam.K * c;
    var row := fam.conIdx[base..base + fam.K];
    forall q | 0 <= q < |row| ensures pos[row[q]] == pos'[row[q]] {
      var u := row[q];
      assert CouplesIn(fam.conIdx, fam.K, c, q, r, u, v);
      assert Couples(fam.conIdx, fam.K, fam.nCon, u, v);
    }
    assert At(pos, row) == At(pos', row);
  }

  lemma {:induction false} GatheredAgrees<P(!new), F, G>(ph: Physics<P, F, G>, fams: seq<Family>, f: nat, pos: seq<P>, pos': seq<P>, v: nat, n: nat, acc: F)
    requires ValidFamilies(fams, |pos|) && f < |fams| && SameFor(fams, pos, pos', v)
    requires n <= |Places(fams[f].conIdx, v, |fams[f].conIdx|)|
    ensures Gathered(ph, f, fams[f], pos, v, n, acc) == Gathered(ph, f, fams[f], pos', v, n, acc)
  {
    hide ForceOn, SameFor;
    assert |pos| == |pos'| by { SameForSize(fams, pos, pos', v); }
    if n != 0 {
      GatheredAgrees(ph, fams, f, pos, pos', v, n - 1, acc);
      ForceAgrees(ph, fams, f, pos, pos', v, Places(fams[f].conIdx, v, |fams[f].conIdx|)[n - 1]);
    }
  }

  lemma SameForSize<P(!new)>(fams: seq<Family>, pos: seq<P>, pos': seq<P>, v: nat)
    requires SameFor(fams, pos, pos', v)
    ensures |pos| == |pos'| && v < |pos| && pos[v] == pos'[v]
  {
  }

  lemma {:induction false} ScratchAgrees<P(!new), F, G>(ph: Physics<P, F, G>, fams: seq<Family>, n: nat, pos: seq<P>, pos': seq<P>, v: nat)
    requires ValidFamilies(fams, |pos|) && n <= |fams| && SameFor(fams, pos, pos', v)
    ensures |pos'| == |pos| && Scratch(ph, fams, n, pos, v) == Scratch(ph, fams, n, pos', v)
  {
    hide Gathered, SameFor;
    SameForSize(fams, pos, pos', v);
    if n != 0 {
      ScratchAgrees(ph, fams, n - 1, pos, pos', v);
      GatheredAgrees(ph, fams, n - 1, pos, pos', v, |Places(fams[n - 1].conIdx, v, |fams[n - 1].conIdx|)|,
                     Scratch(ph, fams, n - 1, pos, v));
    }
  }

  /** Vertices lo..hi of perm share no constraint. */
  ghost predicate ApartFrom(fams: seq<Family>, perm: seq<nat>, lo: nat, hi: nat) {
    forall i, j :: lo <= i < j < hi && j < |perm| ==> Apart(fams, perm[i], perm[j])
  }

  lemma {:induction false} BatchIsSequential<P(!new), F, G>(ph: Physics<P, F, G>, fams: seq<Family>, pos: seq<P>, perm: seq<nat>, lo: nat, hi: nat)
    requires ValidFamilies(fams, |pos|) && lo <= hi <= |perm| && Distinct(perm, |pos|) && ApartFrom(fams, perm, lo, hi)
    ensures GaussSeidel(ph, fams, pos, perm, hi) == Batch(ph, fams, GaussSeidel(ph, fams, pos, perm, lo), perm, lo, hi)
  {
    hide Relax, Apart;
    if lo < hi {
      BatchIsSequential(ph, fams, pos, perm, lo, hi - 1);
      var before := GaussSeidel(ph, fams, pos, perm, lo);
      var last := GaussSeidel(ph, fams, pos, perm, hi - 1);
      SolvedAlike(ph, fams, before, perm, lo, hi);
      assert Relax(ph, fams, last, perm[hi - 1]) == Relax(ph, fams, before, perm[hi - 1]);
    }
  }

  /** The batch's earlier vertices do not disturb its last one. */
  lemma SolvedAlike<P(!new), F, G>(ph: Physics<P, F, G>, fams: seq<Family>, before: seq<P>, perm: seq<nat>, lo: nat, hi: nat)
    requires ValidFamilies(fams, |before|) && lo < hi <= |perm| && Distinct(perm, |before|) && ApartFrom(fams, perm, lo, hi)
    ensures Relax(ph, fams, Batch(ph, fams, before, perm, lo, hi - 1), perm[hi - 1]) == Relax(ph, fams, before, perm[hi - 1])
  {
    hide Batch, Apart, Scratch;
    var v := perm[hi - 1];
    var last := Batch(ph, fams, before, perm, lo, hi - 1);
    forall u | 0 <= u < |last| && last[u] != before[u] ensures Apart(fams, u, v) {
      assert Listed(perm, lo, hi - 1, u);
    }
    assert SameFor(fams, last, before, v);
    ScratchAgrees(ph, fams, |fams|, last, before, v);
  }

  ghost predicate SweepApart(fams: seq<Family>, perm: seq<nat>, offsets: seq<nat>) {
    forall c, d :: 0 <= c < d < |offsets| && d == c + 1 ==> ApartFrom(fams, perm, offsets[c], offsets[d])
  }

  /** A coloured sweep is Gauss-Seidel: if no colour holds two vertices of a constraint,
      the batches give what solving the vertices one at a time gives. */
  lemma {:induction false} SweepIsGaussSeidel<P(!new), F, G>(ph: Physics<P, F, G>, fams: seq<Family>, pos: seq<P>, perm: seq<nat>, offsets: seq<nat>, k: nat)
    requires ValidFamilies(fams, |pos|) && Distinct(perm, |pos|) && Tiles(offsets, |perm|) && k < |offsets|
    requires SweepApart(fams, perm, offsets)
    ensures Sweep(ph, fams, pos, perm, offsets, k) == GaussSeidel(ph, fams, pos, perm, offsets[k])
  {
    hide Batch, ApartFrom;
    if k == 0 {
      assert GaussSeidel(ph, fams, pos, perm, 0) == pos;
    } else {
      SweepIsGaussSeidel(ph, fams, pos, perm, offsets, k - 1);
      assert offsets[k - 1] <= offsets[k] <= offsets[|offsets| - 1];
      BatchIsSequential(ph, fams, pos, perm, offsets[k - 1], offsets[k]);
    }
  }

  // --- the colouring gives separated colours ---------------------------------------------

  /** A cloth: the coupling constraints and its attachments, one vertex each. */
  datatype Cloth = Cloth(t: Topology, attach: seq<nat>)

  predicate ValidCloth(cloth: Cloth) {
    ValidTopology(cloth.t) && InRange(cloth.attach, cloth.t.nV)
  }

  function Families(cloth: Cloth): (fams: seq<Family>)
    requires ValidCloth(cloth)
    ensures |fams| == 4 && ValidFamilies(fams, cloth.t.nV)
  {
    [Family(2, |cloth.t.springs| / 2, cloth.t.springs), Family(1, |cloth.attach|, cloth.attach),
     Family(3, |cloth.t.tris| / 3, cloth.t.tris), Family(4, |cloth.t.bends| / 4, cloth.t.bends)]
  }

  lemma AttachmentsDoNotCouple(attach: seq<nat>, n: nat, u: nat, v: nat)
    requires u != v
    ensures !Couples(attach, 1, n, u, v)
  {
  }

  lemma StrangersApart(cloth: Cloth, u: nat, v: nat)
    requires ValidCloth(cloth) && u != v && !Neighbours(cloth.t, u, v)
    ensures Apart(Families(cloth), u, v)
  {
    hide Couples;
    AttachmentsDoNotCouple(cloth.attach, |cloth.attach|, u, v);
  }

  lemma BatchesSeparate(cloth: Cloth, perm: seq<nat>, offsets: seq<nat>)
    requires ValidCloth(cloth) && Batches(cloth.t, perm, offsets)
    ensures SweepApart(Families(cloth), perm, offsets)
  {
    hide Families, Neighbours, Apart;
    forall c, d | 0 <= c < d < |offsets| && d == c + 1
      ensures ApartFrom(Families(cloth), perm, offsets[c], offsets[d])
    {
      assert offsets[c] <= offsets[d] <= offsets[|offsets| - 1];
      forall i, j | offsets[c] <= i < j < offsets[d]
        ensures Apart(Families(cloth), perm[i], perm[j])
      {
        StrangersApart(cloth, perm[i], perm[j]);
      }
    }
  }

  // --- and they are needed ------------------------------------------------------------------

  predicate AnyTrue(xs: seq<bool>) {
    exists i :: 0 <= i < |xs| && xs[i]
  }

  /** A position says whether w's move has reached the vertex. */
  function Taint(w: nat): Physics<bool, bool, bool> {
    Physics((v, x) => v == w, (f, c, xs) => AnyTrue(xs), (f, acc, g, r) => acc || g, (acc, x) => acc, false, false)
  }

  predicate AllFalse(pos: seq<bool>) {
    forall v :: 0 <= v < |pos| ==> !pos[v]
  }

  lemma UntouchedForce(w: nat, f: nat, fam: Family, c: nat, pos: seq<bool>)
    requires ValidFamily(fam, |pos|) && c < fam.nCon && AllFalse(pos)
    ensures !ForceOn(Taint(w), f, fam, c, pos)
  {
    hide At;
    RowInside(fam, |pos|, c);
    var base := fam.K * c;
    var row := fam.conIdx[base..base + fam.K];
    assert !AnyTrue(At(pos, row));
  }

  lemma {:induction false} UntouchedGather(w: nat, f: nat, fam: Family, pos: seq<bool>, v: nat, n: nat, acc: bool)
    requires ValidFamily(fam, |pos|) && n <= |Places(fam.conIdx, v, |fam.conIdx|)| && AllFalse(pos)
    ensures Gathered(Taint(w), f, fam, pos, v, n, acc) == acc
  {
    hide Places, ForceOn, AllFalse;
    if n != 0 {
      UntouchedGather(w, f, fam, pos, v, n - 1, acc);
      var p := Places(fam.conIdx, v, |fam.conIdx|)[n - 1];
      PlaceSplits(fam, |pos|, p);
      UntouchedForce(w, f, fam, p / fam.K, pos);
    }
  }

  lemma {:induction false} UntouchedScratch(w: nat, fams: seq<Family>, n: nat, pos: seq<bool>, v: nat)
    requires ValidFamilies(fams, |pos|) && n <= |fams| && v < |pos| && AllFalse(pos)
    ensures Scratch(Taint(w), fams, n, pos, v) == (v == w)
  {
    hide Gathered;
    if n != 0 {
      UntouchedScratch(w, fams, n - 1, pos, v);
      UntouchedGather(w, n - 1, fams[n - 1], pos, v, |Places(fams[n - 1].conIdx, v, |fams[n - 1].conIdx|)|,
                      Scratch(Taint(w), fams, n - 1, pos, v));
    }
  }

  lemma {:induction false} TouchedGather(w: nat, f: nat, fam: Family, pos: seq<bool>, v: nat, n: nat, acc: bool, k: nat)
    requires ValidFamily(fam, |pos|) && k < n <= |Places(fam.conIdx, v, |fam.conIdx|)|
    requires var p := Places(fam.conIdx, v, |fam.conIdx|)[k]; p / fam.K < fam.nCon && ForceOn(Taint(w), f, fam, p / fam.K, pos)
    ensures Gathered(Taint(w), f, fam, pos, v, n, acc)
  {
    hide ForceOn;
    if k < n - 1 { TouchedGather(w, f, fam, pos, v, n - 1, acc, k); }
  }

  lemma {:induction false} GatherKeeps(w: nat, f: nat, fam: Family, pos: seq<bool>, v: nat, n: nat, acc: bool)
    requires ValidFamily(fam, |pos|) && n <= |Places(fam.conIdx, v, |fam.conIdx|)| && acc
    ensures Gathered(Taint(w), f, fam, pos, v, n, acc)
  {
    hide ForceOn;
    if n != 0 { GatherKeeps(w, f, fam, pos, v, n - 1, acc); }
  }

  /** A constraint holding a moved vertex moves v. */
  lemma TouchedFamily(w: nat, f: nat, fam: Family, pos: seq<bool>, u: nat, v: nat, acc: bool)
    requires ValidFamily(fam, |pos|) && u < |pos| && pos[u] && Couples(fam.conIdx, fam.K, fam.nCon, u, v)
    ensures Gathered(Taint(w), f, fam, pos, v, |Places(fam.conIdx, v, |fam.conIdx|)|, acc)
  {
    hide Gathered, Places, ForceOn;
    var c: nat, q: nat, r: nat :| c < fam.nCon && CouplesIn(fam.conIdx, fam.K, c, q, r, u, v);
    var p := fam.K * c + r;
    var k := FindPlace(fam.conIdx, v, p);
    PlaceIs(fam.K, c, r, p);
    TouchedForce(w, f, fam, pos, c, q, u);
    TouchedGather(w, f, fam, pos, v, |Places(fam.conIdx, v, |fam.conIdx|)|, acc, k);
  }

  lemma FindPlace(keys: seq<nat>, v: nat, p: nat) returns (k: nat)
    requires p < |keys| && keys[p] == v
    ensures k < |Places(keys, v, |keys|)| && Places(keys, v, |keys|)[k] == p
  {
    hide Places;
    PlacesExact(keys, v, |keys|);
    k :| 0 <= k < |Places(keys, v, |keys|)| && Places(keys, v, |keys|)[k] == p;
  }

  lemma TouchedForce(w: nat, f: nat, fam: Family, pos: seq<bool>, c: nat, q: nat, u: nat)
    requires ValidFamily(fam, |pos|) && c < fam.nCon && q < fam.K && fam.K * c + q < |fam.conIdx|
    requires u < |pos| && pos[u] && fam.conIdx[fam.K * c + q] == u
    ensures ForceOn(Taint(w), f, fam, c, pos)
  {
    hide At;
    RowInside(fam, |pos|, c);
    var base := fam.K * c;
    var row := fam.conIdx[base..base + fam.K];
    assert row[q] == u;
    assert At(pos, row)[q];
  }

  lemma PlaceIs(K: nat, c: nat, r: nat, p: nat)
    requires r < K && p == K * c + r
    ensures p / K == c && p % K == r
  {
    if p / K < c { LessTimes(K, p / K + 1, c); }
    if p / K > c { LessTimes(K, c + 1, p / K); }
    assert p == K * (p / K) + p % K;
  }

  lemma {:induction false} TouchedScratch(w: nat, fams: seq<Family>, n: nat, f: nat, pos: seq<bool>, u: nat, v: nat)
    requires ValidFamilies(fams, |pos|) && f < n <= |fams| && u < |pos| && v < |pos| && pos[u]
    requires Couples(fams[f].conIdx, fams[f].K, fams[f].nCon, u, v)
    ensures Scratch(Taint(w), fams, n, pos, v)
  {
    hide Gathered, Couples;
    var acc := Scratch(Taint(w), fams, n - 1, pos, v);
    if f == n - 1 {
      TouchedFamily(w, f, fams[f], pos, u, v, acc);
    } else {
      TouchedScratch(w, fams, n - 1, f, pos, u, v);
      GatherKeeps(w, n - 1, fams[n - 1], pos, v, |Places(fams[n - 1].conIdx, v, |fams[n - 1].conIdx|)|, acc);
    }
  }

  lemma {:induction false} UntouchedBefore(fams: seq<Family>, pos: seq<bool>, perm: seq<nat>, i: nat, n: nat)
    requires ValidFamilies(fams, |pos|) && Distinct(perm, |pos|) && AllFalse(pos) && n <= i < |perm|
    ensures AllFalse(GaussSeidel(Taint(perm[i]), fams, pos, perm, n))
  {
    hide Scratch;
    if n != 0 {
      UntouchedBefore(fams, pos, perm, i, n - 1);
      UntouchedScratch(perm[i], fams, |fams|, GaussSeidel(Taint(perm[i]), fams, pos, perm, n - 1), perm[n - 1]);
    }
  }

  lemma {:induction false} SequentialTaints(fams: seq<Family>, pos: seq<bool>, perm: seq<nat>, i: nat, j: nat, n: nat)
    requires ValidFamilies(fams, |pos|) && Distinct(perm, |pos|) && AllFalse(pos) && i < j < |perm| && i < n <= |perm|
    requires !Apart(fams, perm[i], perm[j])
    ensures GaussSeidel(Taint(perm[i]), fams, pos, perm, n)[perm[i]]
    ensures j < n ==> GaussSeidel(Taint(perm[i]), fams, pos, perm, n)[perm[j]]
  {
    hide Scratch, Couples;
    var w := perm[i];
    var q := GaussSeidel(Taint(w), fams, pos, perm, n - 1);
    if n - 1 == i {
      UntouchedBefore(fams, pos, perm, i, i);
      UntouchedScratch(w, fams, |fams|, q, w);
    } else {
      SequentialTaints(fams, pos, perm, i, j, n - 1);
      if n - 1 == j {
        var f :| 0 <= f < |fams| && Couples(fams[f].conIdx, fams[f].K, fams[f].nCon, w, perm[j]);
        TouchedScratch(w, fams, |fams|, f, q, w, perm[j]);
      }
    }
  }

  lemma {:induction false} BatchUntainted(fams: seq<Family>, pos: seq<bool>, perm: seq<nat>, offsets: seq<nat>, i: nat, j: nat, c: nat, k: nat)
    requires ValidFamilies(fams, |pos|) && Distinct(perm, |pos|) && Tiles(offsets, |perm|) && AllFalse(pos)
    requires c + 1 < |offsets| && offsets[c] <= i < j < offsets[c + 1] && k < |offsets|
    ensures k <= c ==> AllFalse(Sweep(Taint(perm[i]), fams, pos, perm, offsets, k))
    ensures !Sweep(Taint(perm[i]), fams, pos, perm, offsets, k)[perm[j]]
  {
    hide Scratch;
    assert offsets[c + 1] <= offsets[|offsets| - 1];
    if k != 0 {
      BatchUntainted(fams, pos, perm, offsets, i, j, c, k - 1);
      var q := Sweep(Taint(perm[i]), fams, pos, perm, offsets, k - 1);
      var lo, hi := offsets[k - 1], offsets[k];
      assert lo <= hi <= offsets[|offsets| - 1];
      if k <= c {
        assert hi <= offsets[c];
        UntouchedBatch(fams, q, perm, lo, hi, i);
      } else if k == c + 1 {
        UntouchedScratch(perm[i], fams, |fams|, q, perm[j]);
      } else {
        assert offsets[c + 1] <= lo;
        assert !Listed(perm, lo, hi, perm[j]);
      }
    }
  }

  lemma UntouchedBatch(fams: seq<Family>, pos: seq<bool>, perm: seq<nat>, lo: nat, hi: nat, i: nat)
    requires ValidFamilies(fams, |pos|) && Distinct(perm, |pos|) && AllFalse(pos) && lo <= hi <= i < |perm|
    ensures AllFalse(Batch(Taint(perm[i]), fams, pos, perm, lo, hi))
  {
    hide Scratch;
    var r := Batch(Taint(perm[i]), fams, pos, perm, lo, hi);
    forall v | 0 <= v < |r| ensures !r[v] {
      if Listed(perm, lo, hi, v) {
        UntouchedScratch(perm[i], fams, |fams|, pos, v);
      }
    }
  }

  /** Separation is needed: if some colour holds two vertices of a constraint, the
      sweep differs from Gauss-Seidel for some physics and positions. */
  lemma SharedColorDiffers(fams: seq<Family>, pos: seq<bool>, perm: seq<nat>, offsets: seq<nat>, i: nat, j: nat, c: nat)
    requires ValidFamilies(fams, |pos|) && Distinct(perm, |pos|) && Tiles(offsets, |perm|) && AllFalse(pos)
    requires c + 1 < |offsets| && offsets[c] <= i < j < offsets[c + 1] && j < |perm| && !Apart(fams, perm[i], perm[j])
    ensures Sweep(Taint(perm[i]), fams, pos, perm, offsets, |offsets| - 1) != GaussSeidel(Taint(perm[i]), fams, pos, perm, |perm|)
  {
    BatchUntainted(fams, pos, perm, offsets, i, j, c, |offsets| - 1);
    SequentialTaints(fams, pos, perm, i, j, |perm|);
  }
}
