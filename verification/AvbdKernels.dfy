/** The buffers and kernels of the AVBD solver, and AvbdRd's dispatches: each with the
    buffers its shader only reads and those it may write, both in binding order. */
module AvbdKernels {

  datatype Buf =
    | Positions | Predicted | Mass | GScratch | HScratch | VertPerm | IdentPerm
    | SpP1 | SpP2 | SpRest | SpK | SpGradA | SpHess | SpOff | SpIdx | SpRole
    | AtVert | AtFixed | AtK | AtLambda | AtGamma | AtGradV | AtHess | AtOff | AtIdx
    | TriIdx | TriK | TriL0 | TriL1 | TriGamma | TriGrad | TriHess | TriInvUV | TriOff | TriIdxC | TriRole
    | BdIdx | BdW | BdN | BdK | BdLambda | BdGamma | BdGrad | BdHess | BdOff | BdIdxC | BdRole
    | PositionsPre | TriL0Pre | TriL1Pre | BdLambdaPre
    | VOut | VG | VH | DeltaX | VPosGrad | VPosInit | VPred | VMass | HJunk | VPosSum | VPosGradOut
    | VSpringGradA | VSpringHess | VSpringPd | VSpringRest | VSpringStiff
    | VAttachGradV | VAttachHess | VAttachFixed | VAttachStiff | VAttachLambda
    | VTriGrad | VTriHess | VTriP | VTriStiff | VTriL0 | VTriL1
    | VBendGrad | VBendHess | VBendP | VBendN | VBendStiff | VBendLambda

  datatype Kernel =
    | Init | SpringForce | AttachForce | MembraneForce | BendingForce
    | GatherSpring | GatherAttach | GatherTri | GatherBend | SolveApply
    | AttachDual | MembraneDual | BendingDual
    | Saxpby | SolveApplyBwd | GatherSpringBwd | GatherAttachBwd | GatherTriBwd | GatherBendBwd
    | AttachForceBwd | SpringForceBwd | MembraneForceBwd | BendingForceBwd | InitBwd

  /** A dispatch: the kernel, its site (a colour, -1, or one of the backward
      sites), its thread count, and the buffers it loads from and stores to. */
  datatype Dispatch = Dispatch(kernel: Kernel, site: int, threads: nat, loads: seq<Buf>, stores: seq<Buf>)

  const SCATTER := -2
  const SAX_DELTA := -3
  const SAX_SUM := -4
  const SAX_OUT := -5

  /** Constraint counts and the colour ranges of vertPerm. */
  datatype Mesh = Mesh(nVerts: nat, nSprings: nat, nAttach: nat, nTri: nat, nBend: nat, colorOffsets: seq<nat>)

  predicate ValidMesh(m: Mesh) {
    |m.colorOffsets| > 0 && forall i, j :: 0 <= i < j < |m.colorOffsets| ==> m.colorOffsets[i] <= m.colorOffsets[j]
  }

  function NumColors(m: Mesh): nat
    requires ValidMesh(m)
  {
    |m.colorOffsets| - 1
  }

  function ColorCount(m: Mesh, k: nat): nat
    requires ValidMesh(m) && k < NumColors(m)
  {
    m.colorOffsets[k + 1] - m.colorOffsets[k]
  }

  // --- forward ---------------------------------------------------------------

  function InitD(k: int, n: nat): Dispatch {
    Dispatch(Init, k, n, [Positions, Predicted, Mass, VertPerm], [GScratch, HScratch])
  }

  function SpringForceD(m: Mesh): Dispatch {
    Dispatch(SpringForce, -1, m.nSprings, [Positions, SpP1, SpP2, SpRest, SpK], [SpGradA, SpHess])
  }

  function AttachForceD(m: Mesh): Dispatch {
    Dispatch(AttachForce, -1, m.nAttach, [Positions, AtVert, AtFixed, AtK, AtLambda], [AtGradV, AtHess])
  }

  function MembraneForceD(m: Mesh): Dispatch {
    Dispatch(MembraneForce, -1, m.nTri, [Positions, TriIdx, TriK, TriL0, TriL1, TriInvUV], [TriGrad, TriHess])
  }

  function BendingForceD(m: Mesh): Dispatch {
    Dispatch(BendingForce, -1, m.nBend, [Positions, BdIdx, BdW, BdN, BdK, BdLambda], [BdGrad, BdHess])
  }

  function GatherSpringD(k: int, n: nat): Dispatch {
    Dispatch(GatherSpring, k, n, [SpGradA, SpHess, SpOff, SpIdx, SpRole, VertPerm], [GScratch, HScratch])
  }

  function GatherAttachD(k: int, n: nat): Dispatch {
    Dispatch(GatherAttach, k, n, [AtGradV, AtHess, AtOff, AtIdx, VertPerm], [GScratch, HScratch])
  }

  function GatherTriD(k: int, n: nat): Dispatch {
    Dispatch(GatherTri, k, n, [TriGrad, TriHess, TriOff, TriIdxC, TriRole, VertPerm], [GScratch, HScratch])
  }

  function GatherBendD(k: int, n: nat): Dispatch {
    Dispatch(GatherBend, k, n, [BdGrad, BdHess, BdOff, BdIdxC, BdRole, VertPerm], [GScratch, HScratch])
  }

  function SolveApplyD(k: int, n: nat): Dispatch {
    Dispatch(SolveApply, k, n, [GScratch, HScratch, VertPerm], [Positions])
  }

  function AttachDualD(m: Mesh): Dispatch {
    Dispatch(AttachDual, -1, m.nAttach, [Positions, AtVert, AtFixed], [AtGamma, AtLambda])
  }

  function MembraneDualD(m: Mesh): Dispatch {
    Dispatch(MembraneDual, -1, m.nTri, [Positions, TriIdx, TriInvUV], [TriGamma, TriL0, TriL1])
  }

  function BendingDualD(m: Mesh): Dispatch {
    Dispatch(BendingDual, -1, m.nBend, [Positions, BdIdx, BdW, BdN], [BdGamma, BdLambda])
  }

  // --- backward --------------------------------------------------------------

  function SaxpbyD(site: int, m: Mesh, x: Buf, y: Buf, dst: Buf): Dispatch {
    Dispatch(Saxpby, site, 4 * m.nVerts, [x, y], [dst])
  }

  function SolveApplyBwdD(m: Mesh): Dispatch {
    Dispatch(SolveApplyBwd, -1, m.nVerts, [VOut, HScratch, DeltaX], [VG, VH])
  }

  function GatherSpringBwdD(m: Mesh): Dispatch {
    Dispatch(GatherSpringBwd, -1, m.nSprings, [SpP1, SpP2, VG, VH], [VSpringGradA, VSpringHess])
  }

  function GatherAttachBwdD(m: Mesh): Dispatch {
    Dispatch(GatherAttachBwd, -1, m.nAttach, [AtVert, VG, VH], [VAttachGradV, VAttachHess])
  }

  function GatherTriBwdD(m: Mesh): Dispatch {
    Dispatch(GatherTriBwd, -1, 3 * m.nTri, [TriIdx, VG, VH], [VTriGrad, VTriHess])
  }

  function GatherBendBwdD(m: Mesh): Dispatch {
    Dispatch(GatherBendBwd, -1, 4 * m.nBend, [BdIdx, VG, VH], [VBendGrad, VBendHess])
  }

  function AttachForceBwdD(m: Mesh): Dispatch {
    Dispatch(AttachForceBwd, -1, m.nAttach, [PositionsPre, AtVert, AtFixed, AtK, VAttachGradV, VAttachHess],
             [VPosGrad, VAttachFixed, VAttachLambda, VAttachStiff])
  }

  function SpringForceBwdD(m: Mesh): Dispatch {
    Dispatch(SpringForceBwd, -1, m.nSprings, [PositionsPre, SpP1, SpP2, SpRest, SpK, VSpringGradA, VSpringHess],
             [VSpringPd, VSpringRest, VSpringStiff])
  }

  function MembraneForceBwdD(m: Mesh): Dispatch {
    Dispatch(MembraneForceBwd, -1, m.nTri,
             [PositionsPre, TriIdx, TriK, TriL0Pre, TriL1Pre, TriInvUV, VTriGrad, VTriHess],
             [VTriP, VTriStiff, VTriL0, VTriL1])
  }

  function BendingForceBwdD(m: Mesh): Dispatch {
    Dispatch(BendingForceBwd, -1, m.nBend,
             [PositionsPre, BdIdx, BdW, BdN, BdK, BdLambdaPre, VBendGrad, VBendHess],
             [VBendP, VBendN, VBendStiff, VBendLambda])
  }

  function InitBwdD(m: Mesh): Dispatch {
    Dispatch(InitBwd, -1, m.nVerts, [PositionsPre, Predicted, Mass, VG, VH], [VPosInit, VPred, VMass])
  }

  // The forward gathers as scatters: cotangent buffers under the gathers' names.

  function ScatterSpringD(m: Mesh): Dispatch {
    Dispatch(GatherSpring, SCATTER, m.nVerts, [VSpringPd, VSpringHess, SpOff, SpIdx, SpRole, VertPerm], [VPosGrad, HJunk])
  }

  function ScatterTriD(m: Mesh): Dispatch {
    Dispatch(GatherTri, SCATTER, m.nVerts, [VTriP, VTriHess, TriOff, TriIdxC, TriRole, VertPerm], [VPosGrad, HJunk])
  }

  function ScatterBendD(m: Mesh): Dispatch {
    Dispatch(GatherBend, SCATTER, m.nVerts, [VBendP, VBendHess, BdOff, BdIdxC, BdRole, VertPerm], [VPosGrad, HJunk])
  }
}
