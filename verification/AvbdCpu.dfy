/** AvbdCpu: setup, uploads and step_impl over the buffers the kernels share. */
module AvbdCpuSolver {
  import opened AvbdTopology
  import opened AvbdColoring
  import opened AvbdSweep

  function Identity(n: nat): (p: seq<nat>)
    ensures |p| == n && forall i :: 0 <= i < n ==> p[i] == i
  {
    if n == 0 then [] else Identity(n - 1) + [n - 1]
  }

  /** CSR entry k of v's bucket is the k-th incident constraint and role. */
  lemma CsrEntry(fam: Family, csr: Csr, nV: nat, v: nat, k: nat)
    requires ValidFamily(fam, nV) && v < nV && ListsIncidence(csr, nV, fam.K, fam.conIdx)
    requires k < |Places(fam.conIdx, v, |fam.conIdx|)|
    ensures csr.offsets[v] + k < csr.offsets[v + 1] <= |csr.idx| == |csr.role|
    ensures var p := Places(fam.conIdx, v, |fam.conIdx|)[k];
            && csr.idx[csr.offsets[v] + k] == p / fam.K && csr.role[csr.offsets[v] + k] == p % fam.K
            && p / fam.K < fam.nCon
  {
    hide Places, Bucket, Filled, Named;
    BucketBounds(csr, nV, fam.K, fam.conIdx, v);
    BucketEntry(csr, nV, fam.K, fam.conIdx, v, k);
    var e := csr.offsets[v] + k;
    var p := Places(fam.conIdx, v, |fam.conIdx|)[k];
    NamedIs(csr, fam.K, e, p);
    PlaceSplits(fam, nV, p);
  }

  lemma NamedIs(csr: Csr, K: nat, e: nat, p: nat)
    requires e < |csr.idx| && e < |csr.role| && csr.role[e] < K && Named(csr, K, e) == p
    ensures csr.idx[e] == p / K && csr.role[e] == p % K
  {
    PlaceIs(K, csr.idx[e], csr.role[e], p);
  }

  lemma CsrSpan(fam: Family, csr: Csr, nV: nat, v: nat)
    requires ValidFamily(fam, nV) && v < nV && ListsIncidence(csr, nV, fam.K, fam.conIdx)
    ensures csr.offsets[v + 1] == csr.offsets[v] + |Places(fam.conIdx, v, |fam.conIdx|)|
  {
    hide Places, Bucket, Filled;
    BucketBounds(csr, nV, fam.K, fam.conIdx, v);
  }

  /** Every constraint's buffered gradient is the one at the given positions. */
  ghost predicate GradsAt<P(!new), F, G>(ph: Physics<P, F, G>, f: nat, fam: Family, pos: seq<P>, grad: seq<G>)
    requires ValidFamily(fam, |pos|)
  {
    |grad| == fam.nCon && forall c :: 0 <= c < fam.nCon ==> grad[c] == ForceOn(ph, f, fam, c, pos)
  }

  class AvbdCpu<P(!new), F, G> {
    const ph: Physics<P, F, G>
    var cloth: Cloth
    var positions: seq<P>
    var positionsPre: seq<P>
    var perm: seq<nat>
    var offsets: seq<nat>
    var csrs: seq<Csr>
    var scratch: seq<F>
    var grads: seq<seq<G>>

    ghost predicate Valid()
      reads this
    {
      && ValidCloth(cloth) && |positions| == |scratch| == cloth.t.nV
      && |csrs| == 4 && |grads| == 4
      && (forall f :: 0 <= f < 4 ==> FamilyReady(Families(cloth)[f], cloth.t.nV, csrs[f], |grads[f]|))
      && Distinct(perm, cloth.t.nV) && Tiles(offsets, |perm|)
    }

    static ghost predicate FamilyReady(fam: Family, nV: nat, csr: Csr, nGrads: nat) {
      nGrads == fam.nCon && (fam.nCon > 0 ==> ListsIncidence(csr, nV, fam.K, fam.conIdx))
    }

    /** setupMesh: no constraints yet, and one colour holding every vertex. */
    constructor (ph: Physics<P, F, G>, pos: seq<P>)
      ensures Valid() && this.ph == ph && positions == pos
      ensures cloth == Cloth(Topology(|pos|, [], [], []), [])
      ensures perm == Identity(|pos|) && offsets == [0, |pos|]
    {
      this.ph := ph;
      cloth := Cloth(Topology(|pos|, [], [], []), []);
      positions, positionsPre := pos, [];
      scratch := seq(|pos|, i => ph.zeroF);
      grads := [[], [], [], []];
      csrs := [Csr([], [], []), Csr([], [], []), Csr([], [], []), Csr([], [], [])];
      perm := Identity(|pos|);
      offsets := [0, |pos|];
    }

    /** The uploads: one family's constraints, its zeroed gradients and its CSR. The
        colours stay as they were. */
    method Upload(f: nat, conIdx: seq<nat>)
      requires Valid() && f < 4 && InRange(conIdx, cloth.t.nV) && |conIdx| % Families(cloth)[f].K == 0
      modifies `cloth, `csrs, `grads
      ensures Valid() && cloth == WithFamily(old(cloth), f, conIdx) && cloth.t.nV == old(cloth.t.nV)
      ensures Families(cloth)[f].conIdx == conIdx
      ensures forall g :: 0 <= g < 4 && g != f ==> Families(cloth)[g] == old(Families(cloth)[g])
    {
      hide Families, WithFamily, ValidCloth;
      OneFamily(cloth, f, conIdx);
      var K := Families(cloth)[f].K;
      var nCon := |conIdx| / K;
      Rows(K, conIdx);
      var csr := BuildCsr(cloth.t.nV, nCon, K, conIdx);
      cloth := WithFamily(cloth, f, conIdx);
      csrs := csrs[f := csr];
      grads := grads[f := seq(nCon, i => ph.zeroG)];
    }

    static lemma Rows(K: nat, conIdx: seq<nat>)
      requires K > 0 && |conIdx| % K == 0
      ensures |conIdx| == K * (|conIdx| / K)
    {
    }

    static function WithFamily(cloth: Cloth, f: nat, conIdx: seq<nat>): Cloth
      requires f < 4
    {
      match f
      case 0 => cloth.(t := cloth.t.(springs := conIdx))
      case 1 => cloth.(attach := conIdx)
      case 2 => cloth.(t := cloth.t.(tris := conIdx))
      case 3 => cloth.(t := cloth.t.(bends := conIdx))
    }

    /** One family's constraints are these, and the others are as they were. */
    static lemma OneFamily(cloth: Cloth, f: nat, conIdx: seq<nat>)
      requires ValidCloth(cloth) && f < 4 && InRange(conIdx, cloth.t.nV) && |conIdx| % Families(cloth)[f].K == 0
      ensures var K, after := Families(cloth)[f].K, WithFamily(cloth, f, conIdx);
              && K > 0 && ValidCloth(after) && after.t.nV == cloth.t.nV
              && Families(after)[f] == Family(K, |conIdx| / K, conIdx)
              && forall g :: 0 <= g < 4 && g != f ==> Families(after)[g] == Families(cloth)[g]
    {
    }

    method BuildColoring()
      requires Valid()
      modifies `perm, `offsets
      ensures Valid() && Batches(cloth.t, perm, offsets)
      ensures SweepApart(Families(cloth), perm, offsets)
    {
      ghost var adj, color;
      perm, offsets, adj, color := GreedyColoring(cloth.t);
      BatchesSeparate(cloth, perm, offsets);
    }

    /** Only the first nOwned vertices move, all in one colour. */
    method RestrictToOwned(nOwned: nat)
      requires Valid()
      modifies `perm, `offsets
      ensures Valid() && offsets == [0, |perm|]
      ensures |perm| == (if nOwned > cloth.t.nV then cloth.t.nV else nOwned) && forall i :: 0 <= i < |perm| ==> perm[i] == i
    {
      var n := if nOwned > cloth.t.nV then cloth.t.nV else nOwned;
      perm := Identity(n);
      offsets := [0, n];
    }

    // --- the kernels of one colour -----------------------------------------------------

    method Init(offset: nat, count: nat)
      requires Valid() && offset + count <= |perm|
      modifies `scratch
      ensures Valid()
      ensures forall i :: offset <= i < offset + count ==> scratch[perm[i]] == Scratch(ph, Families(cloth), 0, positions, perm[i])
    {
      for lane := 0 to count
        invariant Valid()
        invariant forall i :: offset <= i < offset + lane ==> scratch[perm[i]] == Scratch(ph, Families(cloth), 0, positions, perm[i])
      {
        var v := perm[lane + offset];
        scratch := scratch[v := ph.init(v, positions[v])];
      }
    }

    /** One family's force kernel: every constraint's gradient at these positions. */
    method Force(f: nat)
      requires Valid() && f < 4
      modifies `grads
      ensures Valid() && GradsAt(ph, f, Families(cloth)[f], positions, grads[f])
      ensures forall g :: 0 <= g < 4 && g != f ==> grads[g] == old(grads[g])
    {
      var fam := Families(cloth)[f];
      for c := 0 to fam.nCon
        invariant Valid() && forall g :: 0 <= g < 4 && g != f ==> grads[g] == old(grads[g])
        invariant forall d :: 0 <= d < c ==> grads[f][d] == ForceOn(ph, f, fam, d, positions)
      {
        RowInside(fam, |positions|, c);
        var base := fam.K * c;
        var row := fam.conIdx[base..base + fam.K];
        grads := grads[f := grads[f][c := ph.force(f, c, At(positions, row))]];
      }
    }

    /** One vertex's thread of a gather kernel. */
    method GatherAt(f: nat, v: nat)
      requires Valid() && f < 4 && v < cloth.t.nV && Families(cloth)[f].nCon > 0
      requires GradsAt(ph, f, Families(cloth)[f], positions, grads[f])
      modifies `scratch
      ensures Valid()
      ensures scratch == old(scratch)[v := Gathered(ph, f, Families(cloth)[f], positions, v,
                                                    |Places(Families(cloth)[f].conIdx, v, |Families(cloth)[f].conIdx|)|, old(scratch)[v])]
    {
      hide Places, Filled, ForceOn, Bucket;
      var fam, csr := Families(cloth)[f], csrs[f];
      assert FamilyReady(fam, cloth.t.nV, csr, |grads[f]|);
      CsrSpan(fam, csr, cloth.t.nV, v);
      var acc := scratch[v];
      var k := csr.offsets[v];
      while k < csr.offsets[v + 1]
        invariant csr.offsets[v] <= k <= csr.offsets[v + 1] && scratch == old(scratch)
        invariant acc == Gathered(ph, f, fam, positions, v, k - csr.offsets[v], scratch[v])
      {
        CsrEntry(fam, csr, cloth.t.nV, v, k - csr.offsets[v]);
        acc := ph.gather(f, acc, grads[f][csr.idx[k]], csr.role[k]);
        k := k + 1;
      }
      scratch := scratch[v := acc];
    }

    /** The vertices offset..offset + count hold the scratch of the first n families. */
    ghost predicate ScratchUpTo(n: nat, offset: nat, count: nat)
      requires Valid() && n <= 4 && offset + count <= |perm|
      reads this
    {
      forall i :: offset <= i < offset + count ==> scratch[perm[i]] == Scratch(ph, Families(cloth), n, positions, perm[i])
    }

    /** A family's gather, skipped when it has no constraints. */
    method Gather(f: nat, offset: nat, count: nat)
      requires Valid() && f < 4 && offset + count <= |perm| && ScratchUpTo(f, offset, count)
      requires GradsAt(ph, f, Families(cloth)[f], positions, grads[f])
      modifies `scratch
      ensures Valid() && ScratchUpTo(f + 1, offset, count)
    {
      hide Places, Gathered, FamilyReady, Families, ForceOn;
      var fam := Families(cloth)[f];
      if fam.nCon == 0 {
        forall i | offset <= i < offset + count
          ensures scratch[perm[i]] == Scratch(ph, Families(cloth), f + 1, positions, perm[i])
        {
          NothingGathered(ph, Families(cloth), f, positions, perm[i]);
        }
        return;
      }
      for lane := 0 to count
        invariant Valid()
        invariant forall i :: offset <= i < offset + lane ==>
                    scratch[perm[i]] == Scratch(ph, Families(cloth), f + 1, positions, perm[i])
        invariant forall i :: offset + lane <= i < offset + count ==>
                    scratch[perm[i]] == Scratch(ph, Families(cloth), f, positions, perm[i])
      {
        GatherAt(f, perm[lane + offset]);
      }
    }

    static lemma NothingGathered(ph: Physics<P, F, G>, fams: seq<Family>, f: nat, pos: seq<P>, v: nat)
      requires ValidFamilies(fams, |pos|) && f < |fams| && v < |pos| && fams[f].nCon == 0
      ensures Scratch(ph, fams, f + 1, pos, v) == Scratch(ph, fams, f, pos, v)
    {
    }

    method Solve(offset: nat, count: nat)
      requires Valid() && offset + count <= |perm| && ScratchUpTo(4, offset, count)
      modifies `positions
      ensures Valid() && positions == Batch(ph, Families(cloth), old(positions), perm, offset, offset + count)
    {
      hide Scratch;
      for lane := 0 to count
        invariant Valid() && positions == Batch(ph, Families(cloth), old(positions), perm, offset, offset + lane)
      {
        var v := perm[lane + offset];
        assert !Listed(perm, offset, offset + lane, v);
        positions := positions[v := ph.solve(scratch[v], positions[v])];
      }
    }

    /** One colour: init, the force kernels, the gathers, the solve. */
    method ColorPass(offset: nat, count: nat)
      requires Valid() && offset + count <= |perm|
      modifies `positions, `scratch, `grads
      ensures Valid() && positions == Batch(ph, Families(cloth), old(positions), perm, offset, offset + count)
    {
      hide Scratch, GradsAt, FamilyReady, Families;
      Init(offset, count);
      for f := 0 to 4
        invariant Valid() && positions == old(positions) && ScratchUpTo(0, offset, count)
        invariant forall g :: 0 <= g < f ==> GradsAt(ph, g, Families(cloth)[g], positions, grads[g])
      {
        Force(f);
      }
      for f := 0 to 4
        invariant Valid() && positions == old(positions) && ScratchUpTo(f, offset, count)
        invariant forall g :: 0 <= g < 4 ==> GradsAt(ph, g, Families(cloth)[g], positions, grads[g])
      {
        Gather(f, offset, count);
      }
      Solve(offset, count);
    }

    /** step_impl: one iteration over the colours. With separated colours it is a
        Gauss-Seidel sweep in perm's order. */
    method Step()
      requires Valid()
      modifies `positions, `positionsPre, `scratch, `grads
      ensures Valid() && positionsPre == old(positions)
      ensures positions == Sweep(ph, Families(cloth), old(positions), perm, offsets, |offsets| - 1)
      ensures SweepApart(Families(cloth), perm, offsets) ==>
                positions == GaussSeidel(ph, Families(cloth), old(positions), perm, |perm|)
    {
      hide Batch, Families, FamilyReady, Sweep, GaussSeidel, SweepApart, Distinct, ValidFamilies, ValidCloth;
      positionsPre := positions;
      NoColor(ph, Families(cloth), positions, perm, offsets);
      for k := 0 to |offsets| - 1
        invariant Valid() && positionsPre == old(positions)
        invariant positions == Sweep(ph, Families(cloth), old(positions), perm, offsets, k)
      {
        assert offsets[k] <= offsets[k + 1] <= offsets[|offsets| - 1];
        var count := offsets[k + 1] - offsets[k];
        if count != 0 {
          ColorPass(offsets[k], count);
        } else {
          EmptyBatch(ph, Families(cloth), positions, perm, offsets[k]);
        }
        NextColor(ph, Families(cloth), old(positions), perm, offsets, k);
      }
      if SweepApart(Families(cloth), perm, offsets) {
        SweepIsGaussSeidel(ph, Families(cloth), old(positions), perm, offsets, |offsets| - 1);
      }
    }

    static lemma NextColor(ph: Physics<P, F, G>, fams: seq<Family>, pos: seq<P>, perm: seq<nat>, offsets: seq<nat>, k: nat)
      requires ValidFamilies(fams, |pos|) && Distinct(perm, |pos|) && Tiles(offsets, |perm|) && k + 1 < |offsets|
      ensures offsets[k] <= offsets[k + 1] <= |perm|
      ensures Sweep(ph, fams, pos, perm, offsets, k + 1) ==
              Batch(ph, fams, Sweep(ph, fams, pos, perm, offsets, k), perm, offsets[k], offsets[k + 1])
    {
      hide Batch;
      assert offsets[k] <= offsets[k + 1] <= offsets[|offsets| - 1];
    }

    static lemma NoColor(ph: Physics<P, F, G>, fams: seq<Family>, pos: seq<P>, perm: seq<nat>, offsets: seq<nat>)
      requires ValidFamilies(fams, |pos|) && Distinct(perm, |pos|) && Tiles(offsets, |perm|)
      ensures Sweep(ph, fams, pos, perm, offsets, 0) == pos
    {
    }

    static lemma EmptyBatch(ph: Physics<P, F, G>, fams: seq<Family>, pos: seq<P>, perm: seq<nat>, at: nat)
      requires ValidFamilies(fams, |pos|) && Distinct(perm, |pos|) && at <= |perm|
      ensures Batch(ph, fams, pos, perm, at, at) == pos
    {
    }
  }
}
