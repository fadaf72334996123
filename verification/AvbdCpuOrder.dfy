/** AvbdCpu's kernels and the order it runs them in. */
module AvbdCpuOrder {

  // Written from AvbdCpu's own blocks, each with the buffers it sets and its thread count,
  // and used as the reference AvbdRd's recording is compared with.

  import opened AvbdKernels

  /** A block the source guards with a count; a loop over no lanes runs nothing. */
  function Only(n: nat, d: Dispatch): seq<Dispatch> {
    if n > 0 && d.threads > 0 then [d] else []
  }

  // --- step and its dual updates -----------------------------------------------------

  function CpuForces(m: Mesh, k: int, count: nat): seq<Dispatch> {
    [Dispatch(Init, k, count, [Positions, Predicted, Mass, VertPerm], [GScratch, HScratch])] +
    Only(m.nSprings, Dispatch(SpringForce, -1, m.nSprings, [Positions, SpP1, SpP2, SpRest, SpK], [SpGradA, SpHess])) +
    Only(m.nAttach, Dispatch(AttachForce, -1, m.nAttach, [Positions, AtVert, AtFixed, AtK, AtLambda], [AtGradV, AtHess])) +
    Only(m.nTri, Dispatch(MembraneForce, -1, m.nTri, [Positions, TriIdx, TriK, TriL0, TriL1, TriInvUV], [TriGrad, TriHess])) +
    Only(m.nBend, Dispatch(BendingForce, -1, m.nBend, [Positions, BdIdx, BdW, BdN, BdK, BdLambda], [BdGrad, BdHess]))
  }

  function CpuGathers(m: Mesh, k: int, count: nat): seq<Dispatch> {
    Only(m.nSprings, Dispatch(GatherSpring, k, count, [SpGradA, SpHess, SpOff, SpIdx, SpRole, VertPerm], [GScratch, HScratch])) +
    Only(m.nAttach, Dispatch(GatherAttach, k, count, [AtGradV, AtHess, AtOff, AtIdx, VertPerm], [GScratch, HScratch])) +
    Only(m.nTri, Dispatch(GatherTri, k, count, [TriGrad, TriHess, TriOff, TriIdxC, TriRole, VertPerm], [GScratch, HScratch])) +
    Only(m.nBend, Dispatch(GatherBend, k, count, [BdGrad, BdHess, BdOff, BdIdxC, BdRole, VertPerm], [GScratch, HScratch]))
  }

  /** step_impl on one colour: init and the forces, the gathers, the solve. */
  function CpuColor(m: Mesh, k: nat): seq<Dispatch>
    requires ValidMesh(m) && k < NumColors(m)
  {
    var count := ColorCount(m, k);
    if count == 0 then []
    else CpuForces(m, k, count) + CpuGathers(m, k, count) +
         [Dispatch(SolveApply, k, count, [GScratch, HScratch, VertPerm], [Positions])]
  }

  function CpuColors(m: Mesh, k: nat): seq<Dispatch>
    requires ValidMesh(m) && k <= NumColors(m)
  {
    if k == 0 then [] else CpuColors(m, k - 1) + CpuColor(m, k - 1)
  }

  /** stepDualAttachments, and the other two families below. */
  function CpuAttachDual(m: Mesh): seq<Dispatch> {
    Only(m.nAttach, Dispatch(AttachDual, -1, m.nAttach, [Positions, AtVert, AtFixed], [AtGamma, AtLambda]))
  }

  function CpuMembraneDual(m: Mesh): seq<Dispatch> {
    Only(m.nTri, Dispatch(MembraneDual, -1, m.nTri, [Positions, TriIdx, TriInvUV], [TriGamma, TriL0, TriL1]))
  }

  function CpuBendingDual(m: Mesh): seq<Dispatch> {
    Only(m.nBend, Dispatch(BendingDual, -1, m.nBend, [Positions, BdIdx, BdW, BdN], [BdGamma, BdLambda]))
  }

  function CpuDuals(m: Mesh): seq<Dispatch> {
    CpuAttachDual(m) + CpuMembraneDual(m) + CpuBendingDual(m)
  }

  /** One pass of AvbdCpu::run: an iteration, then the dual updates. */
  function CpuRound(m: Mesh, duals: bool): seq<Dispatch>
    requires ValidMesh(m)
  {
    CpuColors(m, NumColors(m)) + (if duals then CpuDuals(m) else [])
  }

  function CpuRun(m: Mesh, iters: nat, duals: bool): seq<Dispatch>
    requires ValidMesh(m)
  {
    if iters == 0 then [] else CpuRun(m, iters - 1, duals) + CpuRound(m, duals)
  }

  // --- stepBackward ------------------------------------------------------------------

  /** A saxpby over the rows of three floats AvbdCpu keeps. */
  function CpuSaxpby(m: Mesh, site: int, x: Buf, y: Buf, dst: Buf): seq<Dispatch> {
    Only(m.nVerts, Dispatch(Saxpby, site, 3 * m.nVerts, [x, y], [dst]))
  }

  function CpuPrologue(m: Mesh): seq<Dispatch> {
    CpuSaxpby(m, SAX_DELTA, Positions, PositionsPre, DeltaX) +
    Only(m.nVerts, Dispatch(SolveApplyBwd, -1, m.nVerts, [VOut, HScratch, DeltaX], [VG, VH]))
  }

  function CpuBackwardGathers(m: Mesh): seq<Dispatch> {
    Only(m.nSprings, Dispatch(GatherSpringBwd, -1, m.nSprings, [SpP1, SpP2, VG, VH], [VSpringGradA, VSpringHess])) +
    Only(m.nAttach, Dispatch(GatherAttachBwd, -1, m.nAttach, [AtVert, VG, VH], [VAttachGradV, VAttachHess])) +
    Only(m.nTri, Dispatch(GatherTriBwd, -1, 3 * m.nTri, [TriIdx, VG, VH], [VTriGrad, VTriHess])) +
    Only(m.nBend, Dispatch(GatherBendBwd, -1, 4 * m.nBend, [BdIdx, VG, VH], [VBendGrad, VBendHess]))
  }

  function CpuBackwardForces(m: Mesh): seq<Dispatch> {
    Only(m.nAttach, Dispatch(AttachForceBwd, -1, m.nAttach,
                             [PositionsPre, AtVert, AtFixed, AtK, VAttachGradV, VAttachHess],
                             [VPosGrad, VAttachFixed, VAttachLambda, VAttachStiff])) +
    Only(m.nSprings, Dispatch(SpringForceBwd, -1, m.nSprings,
                              [PositionsPre, SpP1, SpP2, SpRest, SpK, VSpringGradA, VSpringHess],
                              [VSpringPd, VSpringRest, VSpringStiff])) +
    Only(m.nTri, Dispatch(MembraneForceBwd, -1, m.nTri,
                          [PositionsPre, TriIdx, TriK, TriL0Pre, TriL1Pre, TriInvUV, VTriGrad, VTriHess],
                          [VTriP, VTriStiff, VTriL0, VTriL1])) +
    Only(m.nBend, Dispatch(BendingForceBwd, -1, m.nBend,
                           [PositionsPre, BdIdx, BdW, BdN, BdK, BdLambdaPre, VBendGrad, VBendHess],
                           [VBendP, VBendN, VBendStiff, VBendLambda])) +
    Only(m.nVerts, Dispatch(InitBwd, -1, m.nVerts, [PositionsPre, Predicted, Mass, VG, VH], [VPosInit, VPred, VMass]))
  }

  /** The forward gathers over the identity permutation, fed the position cotangents. */
  function CpuScatters(m: Mesh): seq<Dispatch> {
    Only(m.nSprings, Dispatch(GatherSpring, SCATTER, m.nVerts,
                              [VSpringPd, VSpringHess, SpOff, SpIdx, SpRole, IdentPerm], [VPosGrad, HJunk])) +
    Only(m.nTri, Dispatch(GatherTri, SCATTER, m.nVerts,
                          [VTriP, VTriHess, TriOff, TriIdxC, TriRole, IdentPerm], [VPosGrad, HJunk])) +
    Only(m.nBend, Dispatch(GatherBend, SCATTER, m.nVerts,
                           [VBendP, VBendHess, BdOff, BdIdxC, BdRole, IdentPerm], [VPosGrad, HJunk]))
  }

  function CpuSum(m: Mesh): seq<Dispatch> {
    CpuSaxpby(m, SAX_SUM, VPosInit, VOut, VPosSum)
  }

  /** The gradient is added to in place. */
  function CpuOut(m: Mesh): seq<Dispatch> {
    CpuSaxpby(m, SAX_OUT, VPosGrad, VPosSum, VPosGrad)
  }

  function CpuBackward(m: Mesh): seq<Dispatch> {
    CpuPrologue(m) + CpuBackwardGathers(m) + CpuBackwardForces(m) + CpuScatters(m) + CpuSum(m) + CpuOut(m)
  }

  /** A dispatch of AvbdCpu as AvbdRd issues it: its rows are four floats, a scatter takes
      every vertex in vertPerm's order, and the gradient goes to a buffer of its own. */
  function OnRd(d: Dispatch): Dispatch {
    if d.kernel == Saxpby then
      d.(threads := d.threads / 3 * 4, stores := if d.site == SAX_OUT then [VPosGradOut] else d.stores)
    else if d.site == SCATTER && |d.loads| > 0 then d.(loads := d.loads[|d.loads| - 1 := VertPerm])
    else d
  }

  function AllOnRd(ds: seq<Dispatch>): (r: seq<Dispatch>)
    ensures |r| == |ds| && forall i :: 0 <= i < |ds| ==> r[i] == OnRd(ds[i])
  {
    if ds == [] then [] else [OnRd(ds[0])] + AllOnRd(ds[1..])
  }

  lemma AllOnRdAppend(a: seq<Dispatch>, b: seq<Dispatch>)
    ensures AllOnRd(a + b) == AllOnRd(a) + AllOnRd(b)
  {
    hide OnRd;
  }
}
