/** AvbdRd's recording and its hand-placed barriers. */
module AvbdRecord {

  // Kernels of every colour, iteration, dual update and of the backward pass.  Every two
  // dispatches that touch one buffer, one of them writing it, end up on different sides
  // of a barrier or list boundary, so the device computes what AvbdCpu's order computes.

  import opened AvbdCpuOrder
  import opened AvbdKernels
  import opened GpuOrder

  datatype Command =
    | Do(d: Dispatch) | Barrier | ListBegin | ListEnd | Copy(src: Buf, dst: Buf) | Fill(dst: Buf, value: int)

  /** What is done outside a list: copies, and uploads and clears. */
  predicate Transfer(c: Command) {
    c.Copy? || c.Fill?
  }

  // --- what the recording methods append ---------------------------------------

  /** dispatch(): a dispatch of no threads is not recorded. */
  function Emit(d: Dispatch): seq<Command> {
    if d.threads == 0 then [] else [Do(d)]
  }

  function EmitAll(ds: seq<Dispatch>): seq<Command> {
    if ds == [] then [] else EmitAll(ds[..|ds| - 1]) + Emit(ds[|ds| - 1])
  }

  /** One barrier-terminated segment. */
  function Segment(ds: seq<Dispatch>): seq<Command> {
    EmitAll(ds) + [Barrier]
  }

  function When(n: nat, cs: seq<Command>): seq<Command> {
    if n > 0 then cs else []
  }

  function Forces(m: Mesh, k: int, n: nat): seq<Dispatch> {
    [InitD(k, n), SpringForceD(m), AttachForceD(m), MembraneForceD(m), BendingForceD(m)]
  }

  function Gathers(m: Mesh, k: int, n: nat): seq<Command> {
    When(m.nSprings, Segment([GatherSpringD(k, n)])) + When(m.nAttach, Segment([GatherAttachD(k, n)])) +
    When(m.nTri, Segment([GatherTriD(k, n)])) + When(m.nBend, Segment([GatherBendD(k, n)]))
  }

  function Color(m: Mesh, k: nat): seq<Command>
    requires ValidMesh(m) && k < NumColors(m)
  {
    var n := ColorCount(m, k);
    if n == 0 then [] else Segment(Forces(m, k, n)) + Gathers(m, k, n) + Segment([SolveApplyD(k, n)])
  }

  function Colors(m: Mesh, k: nat): seq<Command>
    requires ValidMesh(m) && k <= NumColors(m)
  {
    if k == 0 then [] else Colors(m, k - 1) + Color(m, k - 1)
  }

  function Iteration(m: Mesh): seq<Command>
    requires ValidMesh(m)
  {
    Colors(m, NumColors(m))
  }

  function DualUpdates(m: Mesh): seq<Dispatch> {
    [AttachDualD(m), MembraneDualD(m), BendingDualD(m)]
  }

  function Duals(m: Mesh): seq<Command> {
    Segment(DualUpdates(m))
  }

  function Snapshot(m: Mesh, dirty: bool): seq<Command> {
    [Copy(Positions, PositionsPre)] +
    (if dirty then When(m.nTri, [Copy(TriL0, TriL0Pre), Copy(TriL1, TriL1Pre)]) + When(m.nBend, [Copy(BdLambda, BdLambdaPre)])
     else [])
  }

  /** An iteration, then the dual updates when they are asked for. */
  function Round(m: Mesh, duals: bool): seq<Command>
    requires ValidMesh(m)
  {
    Iteration(m) + (if duals then Duals(m) else [])
  }

  function Repeat(m: Mesh, duals: bool, n: nat): seq<Command>
    requires ValidMesh(m)
  {
    if n == 0 then [] else Repeat(m, duals, n - 1) + Round(m, duals)
  }

  function FirstList(m: Mesh, iters: nat, duals: bool): seq<Command>
    requires ValidMesh(m) && iters >= 1
  {
    if iters > 1 then [ListBegin] + Repeat(m, duals, iters - 1) + [ListEnd] else []
  }

  /** record_run: all but the last iteration in a list of their own, the pre-step
      snapshot, and the last iteration in a list left open. */
  function Run(m: Mesh, iters: nat, duals: bool, dirty: bool): seq<Command>
    requires ValidMesh(m) && iters >= 1
  {
    FirstList(m, iters, duals) + Snapshot(m, dirty || (duals && iters > 1)) + [ListBegin] + Round(m, duals)
  }

  /** prepare_backward: the incoming cotangent up, the two accumulators cleared. */
  function Prepare(cotangent: int): seq<Command> {
    [Fill(VOut, cotangent), Fill(VPosGrad, 0), Fill(HJunk, 0)]
  }

  /** runWithBackward: the transfers first, then the run and the backward pass. */
  function RunBackward(m: Mesh, iters: nat, duals: bool, dirty: bool, cotangent: int): seq<Command>
    requires ValidMesh(m) && iters >= 1
  {
    Prepare(cotangent) + Run(m, iters, duals, dirty) + Backward(m)
  }

  function BackwardGathers(m: Mesh): seq<Dispatch> {
    [GatherSpringBwdD(m), GatherAttachBwdD(m), GatherTriBwdD(m), GatherBendBwdD(m)]
  }

  function BackwardForces(m: Mesh): seq<Dispatch> {
    [AttachForceBwdD(m), SpringForceBwdD(m), MembraneForceBwdD(m), BendingForceBwdD(m), InitBwdD(m)]
  }

  function DeltaD(m: Mesh): Dispatch { SaxpbyD(SAX_DELTA, m, Positions, PositionsPre, DeltaX) }

  function SumD(m: Mesh): Dispatch { SaxpbyD(SAX_SUM, m, VPosInit, VOut, VPosSum) }

  function OutD(m: Mesh): Dispatch { SaxpbyD(SAX_OUT, m, VPosGrad, VPosSum, VPosGradOut) }

  /** The sum joins the first scatter's segment, or has a barrier of its own. */
  function Scatters(m: Mesh): seq<Command> {
    Emit(SumD(m)) +
    When(m.nSprings, Segment([ScatterSpringD(m)])) + When(m.nTri, Segment([ScatterTriD(m)])) +
    When(m.nBend, Segment([ScatterBendD(m)])) +
    (if m.nSprings == 0 && m.nTri == 0 && m.nBend == 0 then [Barrier] else [])
  }

  function Backward(m: Mesh): seq<Command> {
    Segment([DeltaD(m)]) + Segment([SolveApplyBwdD(m)]) +
    Segment(BackwardGathers(m)) + Segment(BackwardForces(m)) + Scatters(m) + Emit(OutD(m))
  }

  // --- separation ----------------------------------------------------------------

  predicate Share(a: seq<Buf>, b: seq<Buf>) {
    !((set x | x in a) !! (set x | x in b))
  }

  predicate BufConflict(a: Dispatch, b: Dispatch) {
    Share(a.stores, b.stores) || Share(a.stores, b.loads) || Share(a.loads, b.stores)
  }

  predicate ClearOf(open: seq<Dispatch>, d: Dispatch) {
    forall i :: 0 <= i < |open| ==> !BufConflict(open[i], d)
  }

  /** No dispatch conflicts with an earlier one of its segment, given the
      dispatches of the segment open at the start. */
  predicate Separated(cmds: seq<Command>, open: seq<Dispatch>)
    decreases |cmds|
  {
    cmds == [] ||
    match cmds[0]
    case Do(d) => ClearOf(open, d) && Separated(cmds[1..], open + [d])
    case _ => Separated(cmds[1..], [])
  }

  function OpenAfter(cmds: seq<Command>, open: seq<Dispatch>): seq<Dispatch>
    decreases |cmds|
  {
    if cmds == [] then open
    else match cmds[0]
      case Do(d) => OpenAfter(cmds[1..], open + [d])
      case _ => OpenAfter(cmds[1..], [])
  }

  lemma {:induction false} SeparatedAppend(a: seq<Command>, b: seq<Command>, open: seq<Dispatch>)
    ensures Separated(a + b, open) <==> Separated(a, open) && Separated(b, OpenAfter(a, open))
    ensures OpenAfter(a + b, open) == OpenAfter(b, OpenAfter(a, open))
    decreases |a|
  {
    if a == [] {
      assert a + b == b;
    } else {
      assert (a + b)[1..] == a[1..] + b && (a + b)[0] == a[0];
      match a[0]
      case Do(d) => SeparatedAppend(a[1..], b, open + [d]);
      case _ => SeparatedAppend(a[1..], b, []);
    }
  }

  predicate Quiet(ds: seq<Dispatch>) {
    forall i, j :: 0 <= i < j < |ds| ==> !BufConflict(ds[i], ds[j])
  }

  /** Separated on its own, with nothing left open behind it. */
  predicate Clean(cmds: seq<Command>) {
    Separated(cmds, []) && OpenAfter(cmds, []) == []
  }

  lemma CleanAppend(a: seq<Command>, b: seq<Command>)
    requires Clean(a) && Clean(b)
    ensures Clean(a + b)
  {
    SeparatedAppend(a, b, []);
  }

  function Started(ds: seq<Dispatch>): seq<Dispatch> {
    if ds == [] then []
    else Started(ds[..|ds| - 1]) + (if ds[|ds| - 1].threads == 0 then [] else [ds[|ds| - 1]])
  }

  lemma {:induction false} StartedMember(ds: seq<Dispatch>, d: Dispatch)
    requires d in Started(ds)
    ensures d in ds
  {
    if d != ds[|ds| - 1] { StartedMember(ds[..|ds| - 1], d); }
  }

  lemma {:induction false} EmitAllSeparated(ds: seq<Dispatch>)
    requires Quiet(ds)
    ensures Separated(EmitAll(ds), []) && OpenAfter(EmitAll(ds), []) == Started(ds)
  {
    hide BufConflict;
    if ds != [] {
      var init, d := ds[..|ds| - 1], ds[|ds| - 1];
      EmitAllSeparated(init);
      SeparatedAppend(EmitAll(init), Emit(d), []);
      forall i | 0 <= i < |Started(init)| ensures !BufConflict(Started(init)[i], d) {
        StartedMember(init, Started(init)[i]);
        var k :| 0 <= k < |init| && init[k] == Started(init)[i];
        assert !BufConflict(ds[k], ds[|ds| - 1]);
      }
      if d.threads != 0 { assert Emit(d)[1..] == []; }
    }
  }

  lemma SegmentClean(ds: seq<Dispatch>)
    requires Quiet(ds)
    ensures Clean(Segment(ds))
  {
    EmitAllSeparated(ds);
    SeparatedAppend(EmitAll(ds), [Barrier], []);
  }

  lemma InitApart(m: Mesh, k: int, n: nat)
    ensures !BufConflict(InitD(k, n), SpringForceD(m)) && !BufConflict(InitD(k, n), AttachForceD(m))
    ensures !BufConflict(InitD(k, n), MembraneForceD(m)) && !BufConflict(InitD(k, n), BendingForceD(m))
  {
  }

  lemma ForcesApart(m: Mesh)
    ensures !BufConflict(SpringForceD(m), AttachForceD(m)) && !BufConflict(SpringForceD(m), MembraneForceD(m))
    ensures !BufConflict(SpringForceD(m), BendingForceD(m)) && !BufConflict(AttachForceD(m), MembraneForceD(m))
    ensures !BufConflict(AttachForceD(m), BendingForceD(m)) && !BufConflict(MembraneForceD(m), BendingForceD(m))
  {
  }

  lemma ForcesQuiet(m: Mesh, k: int, n: nat)
    ensures Quiet(Forces(m, k, n))
  {
    InitApart(m, k, n);
    ForcesApart(m);
    hide BufConflict, InitD, SpringForceD, AttachForceD, MembraneForceD, BendingForceD;
  }

  lemma DualsApart12(m: Mesh)
    ensures !BufConflict(AttachDualD(m), MembraneDualD(m))
  {
  }

  lemma DualsApart13(m: Mesh)
    ensures !BufConflict(AttachDualD(m), BendingDualD(m))
  {
  }

  lemma DualsApart23(m: Mesh)
    ensures !BufConflict(MembraneDualD(m), BendingDualD(m))
  {
  }

  lemma DualsQuiet(m: Mesh)
    ensures Quiet(DualUpdates(m))
  {
    DualsApart12(m);
    DualsApart13(m);
    DualsApart23(m);
    hide BufConflict, AttachDualD, MembraneDualD, BendingDualD;
  }

  lemma SpringGatherApart(m: Mesh)
    ensures !BufConflict(GatherSpringBwdD(m), GatherAttachBwdD(m)) && !BufConflict(GatherSpringBwdD(m), GatherTriBwdD(m))
    ensures !BufConflict(GatherSpringBwdD(m), GatherBendBwdD(m))
  {
  }

  lemma MeshGatherApart(m: Mesh)
    ensures !BufConflict(GatherAttachBwdD(m), GatherTriBwdD(m)) && !BufConflict(GatherAttachBwdD(m), GatherBendBwdD(m))
    ensures !BufConflict(GatherTriBwdD(m), GatherBendBwdD(m))
  {
  }

  lemma BackwardGathersQuiet(m: Mesh)
    ensures Quiet(BackwardGathers(m))
  {
    SpringGatherApart(m);
    MeshGatherApart(m);
    hide BufConflict, GatherSpringBwdD, GatherAttachBwdD, GatherTriBwdD, GatherBendBwdD;
  }

  // The adjoints of one segment, pair by pair.

  lemma BwdApart12(m: Mesh)
    ensures !BufConflict(AttachForceBwdD(m), SpringForceBwdD(m))
  {
  }

  lemma BwdApart13(m: Mesh)
    ensures !BufConflict(AttachForceBwdD(m), MembraneForceBwdD(m))
  {
  }

  lemma BwdApart14(m: Mesh)
    ensures !BufConflict(AttachForceBwdD(m), BendingForceBwdD(m))
  {
  }

  lemma BwdApart15(m: Mesh)
    ensures !BufConflict(AttachForceBwdD(m), InitBwdD(m))
  {
  }

  lemma BwdApart23(m: Mesh)
    ensures !BufConflict(SpringForceBwdD(m), MembraneForceBwdD(m))
  {
  }

  lemma BwdApart24(m: Mesh)
    ensures !BufConflict(SpringForceBwdD(m), BendingForceBwdD(m))
  {
  }

  lemma BwdApart25(m: Mesh)
    ensures !BufConflict(SpringForceBwdD(m), InitBwdD(m))
  {
  }

  lemma BwdApart34(m: Mesh)
    ensures !BufConflict(MembraneForceBwdD(m), BendingForceBwdD(m))
  {
  }

  lemma BwdApart35(m: Mesh)
    ensures !BufConflict(MembraneForceBwdD(m), InitBwdD(m))
  {
  }

  lemma BwdApart45(m: Mesh)
    ensures !BufConflict(BendingForceBwdD(m), InitBwdD(m))
  {
  }

  lemma BackwardForcesQuiet(m: Mesh)
    ensures Quiet(BackwardForces(m))
  {
    BwdApart12(m);
    BwdApart13(m);
    BwdApart14(m);
    BwdApart15(m);
    BwdApart23(m);
    BwdApart24(m);
    BwdApart25(m);
    BwdApart34(m);
    BwdApart35(m);
    BwdApart45(m);
    hide BufConflict, AttachForceBwdD, SpringForceBwdD, MembraneForceBwdD, BendingForceBwdD, InitBwdD;
  }

  lemma ColorClean(m: Mesh, k: nat)
    requires ValidMesh(m) && k < NumColors(m)
    ensures Clean(Color(m, k))
  {
    hide BufConflict, Separated, OpenAfter, Clean;
    var n := ColorCount(m, k);
    EmptyClean();
    if n != 0 {
      ForcesQuiet(m, k, n);
      SegmentClean(Forces(m, k, n));
      SegmentClean([GatherSpringD(k, n)]);
      SegmentClean([GatherAttachD(k, n)]);
      SegmentClean([GatherTriD(k, n)]);
      SegmentClean([GatherBendD(k, n)]);
      SegmentClean([SolveApplyD(k, n)]);
      var a, b := When(m.nSprings, Segment([GatherSpringD(k, n)])), When(m.nAttach, Segment([GatherAttachD(k, n)]));
      var c, d := When(m.nTri, Segment([GatherTriD(k, n)])), When(m.nBend, Segment([GatherBendD(k, n)]));
      CleanAppend(a, b);
      CleanAppend(a + b, c);
      CleanAppend(a + b + c, d);
      CleanAppend(Segment(Forces(m, k, n)), Gathers(m, k, n));
      CleanAppend(Segment(Forces(m, k, n)) + Gathers(m, k, n), Segment([SolveApplyD(k, n)]));
    }
  }

  lemma EmptyClean()
    ensures Clean([])
  {
  }

  lemma {:induction false} ColorsClean(m: Mesh, k: nat)
    requires ValidMesh(m) && k <= NumColors(m)
    ensures Clean(Colors(m, k))
  {
    hide Separated, OpenAfter, Clean, Color;
    EmptyClean();
    if k != 0 {
      ColorsClean(m, k - 1);
      ColorClean(m, k - 1);
      CleanAppend(Colors(m, k - 1), Color(m, k - 1));
    }
  }

  lemma RoundClean(m: Mesh, duals: bool)
    requires ValidMesh(m)
    ensures Clean(Round(m, duals))
  {
    ColorsClean(m, NumColors(m));
    DualsQuiet(m);
    SegmentClean(DualUpdates(m));
    EmptyClean();
    CleanAppend(Iteration(m), if duals then Duals(m) else []);
  }

  lemma {:induction false} RepeatClean(m: Mesh, duals: bool, n: nat)
    requires ValidMesh(m)
    ensures Clean(Repeat(m, duals, n))
  {
    hide Round, Clean;
    EmptyClean();
    if n != 0 {
      RepeatClean(m, duals, n - 1);
      RoundClean(m, duals);
      CleanAppend(Repeat(m, duals, n - 1), Round(m, duals));
    }
  }

  lemma MarkClean(c: Command)
    requires !c.Do?
    ensures Clean([c])
  {
  }

  lemma SnapshotClean(m: Mesh, dirty: bool)
    ensures Clean(Snapshot(m, dirty))
  {
    var a := When(m.nTri, [Copy(TriL0, TriL0Pre), Copy(TriL1, TriL1Pre)]);
    var b := When(m.nBend, [Copy(BdLambda, BdLambdaPre)]);
    MarkClean(Copy(Positions, PositionsPre));
    assert Clean(a) && Clean(b);
    CleanAppend(a, b);
    CleanAppend([Copy(Positions, PositionsPre)], if dirty then a + b else []);
  }

  /** For every colour count, iteration count, duals flag and mix of families, the
      forward recording separates its conflicting dispatches. */
  lemma RunClean(m: Mesh, iters: nat, duals: bool, dirty: bool)
    requires ValidMesh(m) && iters >= 1
    ensures Clean(Run(m, iters, duals, dirty))
  {
    hide Clean, Repeat, Round, Snapshot;
    EmptyClean();
    MarkClean(ListBegin);
    MarkClean(ListEnd);
    RepeatClean(m, duals, iters - 1);
    CleanAppend([ListBegin], Repeat(m, duals, iters - 1));
    CleanAppend([ListBegin] + Repeat(m, duals, iters - 1), [ListEnd]);
    var a, b := FirstList(m, iters, duals), Snapshot(m, dirty || (duals && iters > 1));
    SnapshotClean(m, dirty || (duals && iters > 1));
    CleanAppend(a, b);
    CleanAppend(a + b, [ListBegin]);
    RoundClean(m, duals);
    CleanAppend(a + b + [ListBegin], Round(m, duals));
  }

  lemma ScatterSeparated(sum: seq<Dispatch>, m: Mesh, d: Dispatch)
    requires sum == [] || sum == [SumD(m)]
    requires d == ScatterSpringD(m) || d == ScatterTriD(m) || d == ScatterBendD(m)
    ensures Separated(Segment([d]), sum) && OpenAfter(Segment([d]), sum) == []
  {
    assert EmitAll([d]) == Emit(d) by { assert [d][..0] == []; }
    assert ClearOf(sum, d);
    SeparatedAppend(Emit(d), [Barrier], sum);
    if d.threads != 0 { assert Emit(d)[1..] == []; }
  }

  lemma ScattersClean(m: Mesh)
    ensures Clean(Scatters(m))
  {
    var sum := if SumD(m).threads == 0 then [] else [SumD(m)];
    var a, b := When(m.nSprings, Segment([ScatterSpringD(m)])), When(m.nTri, Segment([ScatterTriD(m)]));
    var c := When(m.nBend, Segment([ScatterBendD(m)]));
    var e: seq<Command> := if m.nSprings == 0 && m.nTri == 0 && m.nBend == 0 then [Barrier] else [];
    assert Separated(Emit(SumD(m)), []) && OpenAfter(Emit(SumD(m)), []) == sum by {
      if SumD(m).threads != 0 { assert Emit(SumD(m))[1..] == []; }
    }
    hide SumD, ScatterSpringD, ScatterTriD, ScatterBendD, BufConflict, Segment;
    ScatterSeparated(sum, m, ScatterSpringD(m));
    ScatterSeparated(sum, m, ScatterTriD(m));
    ScatterSeparated(sum, m, ScatterBendD(m));
    ScatterSeparated([], m, ScatterTriD(m));
    ScatterSeparated([], m, ScatterBendD(m));
    SeparatedAppend(Emit(SumD(m)), a, []);
    SeparatedAppend(Emit(SumD(m)) + a, b, []);
    SeparatedAppend(Emit(SumD(m)) + a + b, c, []);
    SeparatedAppend(Emit(SumD(m)) + a + b + c, e, []);
  }

  lemma BackwardSeparated(m: Mesh)
    ensures Separated(Backward(m), [])
  {
    hide BufConflict, OpenAfter, Clean;
    SegmentClean([DeltaD(m)]);
    SegmentClean([SolveApplyBwdD(m)]);
    BackwardGathersQuiet(m);
    SegmentClean(BackwardGathers(m));
    BackwardForcesQuiet(m);
    SegmentClean(BackwardForces(m));
    ScattersClean(m);
    var a, b := Segment([DeltaD(m)]), Segment([SolveApplyBwdD(m)]);
    var c, d := Segment(BackwardGathers(m)), Segment(BackwardForces(m));
    CleanAppend(a, b);
    CleanAppend(a + b, c);
    CleanAppend(a + b + c, d);
    CleanAppend(a + b + c + d, Scatters(m));
    FinishSeparated(a + b + c + d + Scatters(m), OutD(m));
  }

  lemma FinishSeparated(a: seq<Command>, d: Dispatch)
    requires Clean(a)
    ensures Separated(a + Emit(d), [])
  {
    SeparatedAppend(a, Emit(d), []);
    if d.threads != 0 { assert Emit(d)[1..] == []; }
  }

  lemma PrepareClean(cotangent: int)
    ensures Clean(Prepare(cotangent))
  {
    MarkClean(Fill(VOut, cotangent));
    MarkClean(Fill(VPosGrad, 0));
    MarkClean(Fill(HJunk, 0));
    CleanAppend([Fill(VOut, cotangent)], [Fill(VPosGrad, 0)]);
    CleanAppend([Fill(VOut, cotangent)] + [Fill(VPosGrad, 0)], [Fill(HJunk, 0)]);
    assert Prepare(cotangent) == [Fill(VOut, cotangent)] + [Fill(VPosGrad, 0)] + [Fill(HJunk, 0)];
  }

  /** A run with the backward pass in its last list is separated throughout. */
  lemma RunWithBackwardSeparated(m: Mesh, iters: nat, duals: bool, dirty: bool, cotangent: int)
    requires ValidMesh(m) && iters >= 1
    ensures Separated(RunBackward(m, iters, duals, dirty, cotangent), [])
  {
    PrepareClean(cotangent);
    RunClean(m, iters, duals, dirty);
    CleanAppend(Prepare(cotangent), Run(m, iters, duals, dirty));
    BackwardSeparated(m);
    SeparatedAppend(Prepare(cotangent) + Run(m, iters, duals, dirty), Backward(m), []);
  }

  // --- the device ----------------------------------------------------------------

  /** A numbering of the buffers and what each kernel does with what is bound. */
  datatype Machine = Machine(rid: Buf -> int, kernel: Dispatch -> Program, copy: (Buf, Buf) -> Program, fill: (Buf, int) -> Program)

  ghost predicate DistinctBuffers(w: Machine) {
    forall a, b :: w.rid(a) == w.rid(b) ==> a == b
  }

  ghost function CellsOf(w: Machine, bs: seq<Buf>): iset<Cell> {
    iset c: Cell | exists b :: b in bs && w.rid(b) == c.rid
  }

  ghost function TaskOf(w: Machine, c: Command): Task
    requires c.Do? || Transfer(c)
  {
    match c
    case Do(d) => Task(w.kernel(d), CellsOf(w, d.loads), CellsOf(w, d.stores))
    case Copy(src, dst) => Task(w.copy(src, dst), CellsOf(w, [src]), CellsOf(w, [dst]))
    case Fill(dst, value) => Task(w.fill(dst, value), CellsOf(w, []), CellsOf(w, [dst]))
  }

  /** Every kernel and transfer stays inside the buffers bound to it. */
  ghost predicate InBuffers(w: Machine) {
    && (forall d :: StaysInside(TaskOf(w, Do(d))))
    && (forall src, dst :: StaysInside(TaskOf(w, Copy(src, dst))))
    && (forall dst, value :: StaysInside(TaskOf(w, Fill(dst, value))))
  }

  predicate IsWork(cs: seq<Command>) {
    forall i :: 0 <= i < |cs| ==> cs[i].Do? || Transfer(cs[i])
  }

  /** The commands that do work, in recording order. */
  function Work(cmds: seq<Command>): (r: seq<Command>)
    ensures IsWork(r)
  {
    if cmds == [] then []
    else Work(cmds[..|cmds| - 1]) +
         (var c := cmds[|cmds| - 1]; if c.Do? || Transfer(c) then [c] else [])
  }

  function Dos(ds: seq<Dispatch>): (r: seq<Command>)
    ensures |r| == |ds| && forall i :: 0 <= i < |ds| ==> r[i] == Do(ds[i])
  {
    if ds == [] then [] else Dos(ds[..|ds| - 1]) + [Do(ds[|ds| - 1])]
  }

  /** The work cut at barriers, list boundaries and transfers; the last part is open. */
  function Closed(cmds: seq<Command>): seq<seq<Command>>
    decreases |cmds|
  {
    if cmds == [] then []
    else
      var init, c := cmds[..|cmds| - 1], cmds[|cmds| - 1];
      if c.Do? then Closed(init)
      else Closed(init) + [Dos(OpenAfter(init, []))] + (if Transfer(c) then [[c]] else [])
  }

  function Parts(cmds: seq<Command>): seq<seq<Command>> {
    Closed(cmds) + [Dos(OpenAfter(cmds, []))]
  }

  lemma OpenAfterPush(init: seq<Command>, c: Command)
    ensures OpenAfter(init + [c], []) == if c.Do? then OpenAfter(init, []) + [c.d] else []
  {
    SeparatedAppend(init, [c], []);
    assert [c][1..] == [];
  }

  lemma {:induction false} FlattenSnoc<T>(segs: seq<seq<T>>, x: seq<T>)
    ensures Flatten(segs + [x]) == Flatten(segs) + x
    decreases |segs|
  {
    if segs == [] {
      assert ([] + [x])[1..] == [];
    } else {
      FlattenSnoc(segs[1..], x);
      assert (segs + [x])[1..] == segs[1..] + [x];
    }
  }

  lemma {:induction false} PartsAreWork(cmds: seq<Command>)
    ensures Flatten(Parts(cmds)) == Work(cmds)
    decreases |cmds|
  {
    hide Flatten, OpenAfter;
    FlattenSnoc(Closed(cmds), Dos(OpenAfter(cmds, [])));
    if cmds == [] {
      NothingOpen();
    } else {
      var init, c := cmds[..|cmds| - 1], cmds[|cmds| - 1];
      assert cmds == init + [c];
      PartsAreWork(init);
      OpenAfterPush(init, c);
      FlattenSnoc(Closed(init), Dos(OpenAfter(init, [])));
      if Transfer(c) {
        FlattenSnoc(Parts(init), [c]);
        assert Closed(cmds) == Parts(init) + [[c]];
      } else if !c.Do? {
        assert Closed(cmds) == Parts(init);
      }
    }
  }

  lemma NothingOpen()
    ensures OpenAfter([], []) == [] && Flatten<Command>([]) == []
  {
  }

  predicate QuietPart(p: seq<Command>) {
    && (forall i :: 0 <= i < |p| ==> p[i].Do?)
    && (forall i, j :: 0 <= i < j < |p| ==> !BufConflict(p[i].d, p[j].d))
  }

  /** A part is one transfer, or dispatches no two of which conflict. */
  predicate GoodPart(p: seq<Command>) {
    IsWork(p) && ((|p| == 1 && Transfer(p[0])) || QuietPart(p))
  }

  predicate AllGood(parts: seq<seq<Command>>) {
    forall k :: 0 <= k < |parts| ==> IsWork(parts[k]) && GoodPart(parts[k])
  }

  lemma {:induction false} OpenIsQuiet(cmds: seq<Command>)
    requires Separated(cmds, [])
    ensures Quiet(OpenAfter(cmds, []))
    decreases |cmds|
  {
    if cmds == [] {
      NothingOpen();
    } else {
      hide BufConflict, OpenAfter, Separated;
      var init, c := cmds[..|cmds| - 1], cmds[|cmds| - 1];
      assert cmds == init + [c];
      SeparatedAppend(init, [c], []);
      OpenIsQuiet(init);
      OpenAfterPush(init, c);
      if c.Do? { LastIsClear(init, c); }
    }
  }

  lemma LastIsClear(init: seq<Command>, c: Command)
    requires c.Do? && Separated([c], OpenAfter(init, []))
    ensures ClearOf(OpenAfter(init, []), c.d)
  {
  }

  lemma {:induction false} PartsAreGood(cmds: seq<Command>)
    requires Separated(cmds, [])
    ensures AllGood(Parts(cmds))
    decreases |cmds|
  {
    hide BufConflict, OpenAfter, Separated;
    OpenIsQuiet(cmds);
    assert GoodPart(Dos(OpenAfter(cmds, [])));
    if cmds != [] {
      var init, c := cmds[..|cmds| - 1], cmds[|cmds| - 1];
      assert cmds == init + [c];
      SeparatedAppend(init, [c], []);
      PartsAreGood(init);
      forall k | 0 <= k < |Closed(cmds)| ensures GoodPart(Closed(cmds)[k]) {
        if k <= |Closed(init)| { assert Closed(cmds)[k] == Parts(init)[k]; } else { assert Closed(cmds)[k] == [c]; }
      }
    }
  }

  ghost function TasksOf(w: Machine, cs: seq<Command>): (ts: seq<Task>)
    requires IsWork(cs)
    ensures |ts| == |cs| && forall i :: 0 <= i < |cs| ==> ts[i] == TaskOf(w, cs[i])
  {
    if cs == [] then [] else [TaskOf(w, cs[0])] + TasksOf(w, cs[1..])
  }

  ghost function TaskParts(w: Machine, parts: seq<seq<Command>>): (r: seq<seq<Task>>)
    requires AllGood(parts)
    ensures |r| == |parts| && forall k :: 0 <= k < |parts| ==> r[k] == TasksOf(w, parts[k])
  {
    if parts == [] then [] else [TasksOf(w, parts[0])] + TaskParts(w, parts[1..])
  }

  lemma NotShared(a: seq<Buf>, b: seq<Buf>)
    requires !Share(a, b)
    ensures forall x :: x in a ==> x !in b
  {
    var xs, ys := set x | x in a, set y | y in b;
    forall x | x in a ensures x !in b {
      assert x in xs;
      assert x in ys <==> x in b;
    }
  }

  lemma NoBufConflict(w: Machine, a: Dispatch, b: Dispatch)
    requires DistinctBuffers(w) && !BufConflict(a, b)
    ensures !Conflict(TaskOf(w, Do(a)), TaskOf(w, Do(b)))
  {
    NotShared(a.stores, b.stores);
    NotShared(a.stores, b.loads);
    NotShared(a.loads, b.stores);
    hide Share;
  }

  lemma GoodPartTasks(w: Machine, p: seq<Command>)
    requires DistinctBuffers(w) && InBuffers(w) && IsWork(p) && GoodPart(p)
    ensures ConflictFree(TasksOf(w, p)) && AllInside(TasksOf(w, p))
  {
    hide BufConflict, Conflict, StaysInside;
    var ts := TasksOf(w, p);
    forall i, j | 0 <= i < j < |ts| ensures !Conflict(ts[i], ts[j]) {
      NoBufConflict(w, p[i].d, p[j].d);
    }
    forall i | 0 <= i < |ts| ensures StaysInside(ts[i]) {
      assert p[i] == if p[i].Do? then Do(p[i].d) else if p[i].Copy? then Copy(p[i].src, p[i].dst) else Fill(p[i].dst, p[i].value);
      assert StaysInside(TaskOf(w, p[i]));
    }
  }

  lemma TasksAppend(w: Machine, a: seq<Command>, b: seq<Command>)
    requires IsWork(a) && IsWork(b)
    ensures TasksOf(w, a + b) == TasksOf(w, a) + TasksOf(w, b)
  {
    hide TaskOf;
  }

  lemma {:induction false} FlattenTaskParts(w: Machine, parts: seq<seq<Command>>)
    requires AllGood(parts)
    ensures IsWork(Flatten(parts))
    ensures Flatten(TaskParts(w, parts)) == TasksOf(w, Flatten(parts))
    decreases |parts|
  {
    hide TaskOf, BufConflict;
    if parts != [] {
      FlattenTaskParts(w, parts[1..]);
      assert TaskParts(w, parts)[1..] == TaskParts(w, parts[1..]);
      TasksAppend(w, parts[0], Flatten(parts[1..]));
    }
  }

  /** Separated recordings mean their recording order: whatever each kernel does
      inside the buffers bound to it, and however the device interleaves the
      dispatches of a part, it ends in a memory exactly when running the commands
      one after the other does. */
  lemma SeparatedIsInOrder(w: Machine, cmds: seq<Command>, m: Memory, f: Memory)
    requires DistinctBuffers(w) && InBuffers(w) && Separated(cmds, [])
    ensures AllGood(Parts(cmds))
    ensures DeviceRun(TaskParts(w, Parts(cmds)), m, f) <==> InOrder(TasksOf(w, Work(cmds)), m, f)
  {
    hide Separated, OpenAfter, Parts, DeviceRun, InOrder, ConflictFree, AllInside, InBuffers;
    PartsAreGood(cmds);
    PartsAreWork(cmds);
    forall k | 0 <= k < |Parts(cmds)|
      ensures ConflictFree(TasksOf(w, Parts(cmds)[k])) && AllInside(TasksOf(w, Parts(cmds)[k]))
    {
      GoodPartTasks(w, Parts(cmds)[k]);
    }
    DeviceIsInOrder(TaskParts(w, Parts(cmds)), m, f);
    FlattenTaskParts(w, Parts(cmds));
  }

  // --- AvbdCpu's order -------------------------------------------------------------

  function Dispatches(cmds: seq<Command>): seq<Dispatch> {
    if cmds == [] then [] else (if cmds[0].Do? then [cmds[0].d] else []) + Dispatches(cmds[1..])
  }

  lemma {:induction false} DispatchesAppend(a: seq<Command>, b: seq<Command>)
    ensures Dispatches(a + b) == Dispatches(a) + Dispatches(b)
    decreases |a|
  {
    if a == [] {
      assert a + b == b;
    } else {
      DispatchesAppend(a[1..], b);
      assert (a + b)[1..] == a[1..] + b;
      JoinRest(if a[0].Do? then [a[0].d] else [], Dispatches(a[1..]), Dispatches(b));
    }
  }

  lemma JoinRest(first: seq<Dispatch>, rest: seq<Dispatch>, more: seq<Dispatch>)
    ensures first + (rest + more) == (first + rest) + more
  {
  }

  lemma DispatchesAppend4(a: seq<Command>, b: seq<Command>, c: seq<Command>, d: seq<Command>)
    ensures Dispatches(a + b + c + d) == Dispatches(a) + Dispatches(b) + Dispatches(c) + Dispatches(d)
  {
    hide Dispatches;
    DispatchesAppend(a, b);
    DispatchesAppend(a + b, c);
    DispatchesAppend(a + b + c, d);
  }

  lemma {:induction false} DispatchesOfAll(ds: seq<Dispatch>)
    ensures Dispatches(EmitAll(ds)) == Started(ds) && Dispatches(Segment(ds)) == Started(ds)
  {
    if ds != [] {
      DispatchesOfAll(ds[..|ds| - 1]);
      DispatchesAppend(EmitAll(ds[..|ds| - 1]), Emit(ds[|ds| - 1]));
    }
    DispatchesAppend(EmitAll(ds), [Barrier]);
  }

  lemma DispatchesWhen(n: nat, d: Dispatch)
    ensures Dispatches(When(n, Segment([d]))) == Only(n, d)
  {
    DispatchesOfAll([d]);
    assert [d][..0] == [];
  }

  lemma StartedNone()
    ensures Started([]) == []
  {
  }

  lemma StartedPush(ds: seq<Dispatch>, d: Dispatch, longer: seq<Dispatch>)
    requires longer == ds + [d]
    ensures Started(longer) == Started(ds) + Only(d.threads, d)
  {
    assert (ds + [d])[..|ds|] == ds;
  }

  lemma Started3(a: Dispatch, b: Dispatch, c: Dispatch)
    ensures Started([a, b, c]) == Only(a.threads, a) + Only(b.threads, b) + Only(c.threads, c)
  {
    hide Started, Only;
    StartedNone();
    StartedPush([], a, [a]);
    StartedPush([a], b, [a, b]);
    StartedPush([a, b], c, [a, b, c]);
  }

  lemma Started5(a: Dispatch, b: Dispatch, c: Dispatch, d: Dispatch, e: Dispatch)
    ensures Started([a, b, c, d]) == Only(a.threads, a) + Only(b.threads, b) + Only(c.threads, c) + Only(d.threads, d)
    ensures Started([a, b, c, d, e]) == Started([a, b, c, d]) + Only(e.threads, e)
  {
    hide Started, Only;
    Started3(a, b, c);
    StartedPush([a, b, c], d, [a, b, c, d]);
    StartedPush([a, b, c, d], e, [a, b, c, d, e]);
  }

  lemma ForcesAreCpu(m: Mesh, k: int, n: nat)
    requires n > 0
    ensures Started(Forces(m, k, n)) == CpuForces(m, k, n)
  {
    hide Started;
    Started5(InitD(k, n), SpringForceD(m), AttachForceD(m), MembraneForceD(m), BendingForceD(m));
  }

  lemma DualsAreCpu(m: Mesh)
    ensures Started(DualUpdates(m)) == CpuDuals(m)
  {
    hide Started;
    Started3(AttachDualD(m), MembraneDualD(m), BendingDualD(m));
  }

  lemma GathersAreCpu(m: Mesh, k: int, n: nat)
    requires n > 0
    ensures Dispatches(Gathers(m, k, n)) == CpuGathers(m, k, n)
  {
    hide When, Only, Dispatches;
    DispatchesWhen(m.nSprings, GatherSpringD(k, n));
    DispatchesWhen(m.nAttach, GatherAttachD(k, n));
    DispatchesWhen(m.nTri, GatherTriD(k, n));
    DispatchesWhen(m.nBend, GatherBendD(k, n));
    DispatchesAppend4(When(m.nSprings, Segment([GatherSpringD(k, n)])), When(m.nAttach, Segment([GatherAttachD(k, n)])),
                      When(m.nTri, Segment([GatherTriD(k, n)])), When(m.nBend, Segment([GatherBendD(k, n)])));
  }

  lemma ColorIsCpu(m: Mesh, k: nat)
    requires ValidMesh(m) && k < NumColors(m)
    ensures Dispatches(Color(m, k)) == CpuColor(m, k)
  {
    var n := ColorCount(m, k);
    if n != 0 {
      GathersAreCpu(m, k, n);
      DispatchesOfAll(Forces(m, k, n));
      ForcesAreCpu(m, k, n);
      DispatchesWhen(1, SolveApplyD(k, n));
      assert When(1, Segment([SolveApplyD(k, n)])) == Segment([SolveApplyD(k, n)]);
      hide Dispatches, Forces, Gathers, CpuGathers, Segment, Started, CpuForces;
      DispatchesAppend(Segment(Forces(m, k, n)), Gathers(m, k, n));
      DispatchesAppend(Segment(Forces(m, k, n)) + Gathers(m, k, n), Segment([SolveApplyD(k, n)]));
    }
  }

  lemma JoinDispatches(a: seq<Command>, b: seq<Command>, x: seq<Dispatch>, y: seq<Dispatch>)
    requires Dispatches(a) == x && Dispatches(b) == y
    ensures Dispatches(a + b) == x + y
  {
    DispatchesAppend(a, b);
  }

  lemma OneMoreColor(m: Mesh, k: nat)
    requires ValidMesh(m) && 0 < k <= NumColors(m) && Dispatches(Colors(m, k - 1)) == CpuColors(m, k - 1)
    ensures Dispatches(Colors(m, k)) == CpuColors(m, k)
  {
    hide Dispatches, Color, CpuColor;
    ColorIsCpu(m, k - 1);
    JoinDispatches(Colors(m, k - 1), Color(m, k - 1), CpuColors(m, k - 1), CpuColor(m, k - 1));
  }

  lemma {:induction false} ColorsAreCpu(m: Mesh, k: nat)
    requires ValidMesh(m) && k <= NumColors(m)
    ensures Dispatches(Colors(m, k)) == CpuColors(m, k)
  {
    hide Color, CpuColor;
    if k != 0 {
      ColorsAreCpu(m, k - 1);
      OneMoreColor(m, k);
    }
  }

  lemma RoundIsCpu(m: Mesh, duals: bool)
    requires ValidMesh(m)
    ensures Dispatches(Round(m, duals)) == CpuRound(m, duals)
  {
    ColorsAreCpu(m, NumColors(m));
    DispatchesOfAll(DualUpdates(m));
    DualsAreCpu(m);
    DispatchesAppend(Iteration(m), if duals then Duals(m) else []);
  }

  lemma {:induction false} RepeatIsCpu(m: Mesh, duals: bool, n: nat)
    requires ValidMesh(m)
    ensures Dispatches(Repeat(m, duals, n)) == CpuRun(m, n, duals)
  {
    if n != 0 {
      RepeatIsCpu(m, duals, n - 1);
      RoundIsCpu(m, duals);
      hide Dispatches, CpuRound, Round;
      DispatchesAppend(Repeat(m, duals, n - 1), Round(m, duals));
    }
  }

  lemma CopiesDispatchNothing(m: Mesh, dirty: bool)
    ensures Dispatches(Snapshot(m, dirty)) == []
  {
    var a := When(m.nTri, [Copy(TriL0, TriL0Pre), Copy(TriL1, TriL1Pre)]);
    var b := When(m.nBend, [Copy(BdLambda, BdLambdaPre)]);
    assert Dispatches(a) == [] && Dispatches(b) == [];
    DispatchesAppend(a, b);
    DispatchesAppend([Copy(Positions, PositionsPre)], if dirty then a + b else []);
  }

  lemma FirstListIsCpu(m: Mesh, duals: bool, n: nat)
    requires ValidMesh(m)
    ensures Dispatches([ListBegin] + Repeat(m, duals, n) + [ListEnd]) == CpuRun(m, n, duals)
  {
    RepeatIsCpu(m, duals, n);
    assert Dispatches([ListBegin]) == [] && Dispatches([ListEnd]) == [];
    hide Dispatches, Repeat, CpuRun;
    DispatchesAppend([ListBegin], Repeat(m, duals, n));
    DispatchesAppend([ListBegin] + Repeat(m, duals, n), [ListEnd]);
  }

  /** The recorded run is AvbdCpu::run's dispatches in AvbdCpu::run's order. */
  lemma RunIsCpu(m: Mesh, iters: nat, duals: bool, dirty: bool)
    requires ValidMesh(m) && iters >= 1
    ensures Dispatches(Run(m, iters, duals, dirty)) == CpuRun(m, iters, duals)
  {
    FirstListIsCpu(m, duals, iters - 1);
    RoundIsCpu(m, duals);
    CopiesDispatchNothing(m, dirty || (duals && iters > 1));
    assert Dispatches([]) == [] && Dispatches([ListBegin]) == [];
    assert CpuRun(m, 0, duals) == [];
    var a, b, d := FirstList(m, iters, duals), Snapshot(m, dirty || (duals && iters > 1)), Round(m, duals);
    assert Dispatches(a) == CpuRun(m, iters - 1, duals);
    JoinRun(a, b, d, CpuRun(m, iters - 1, duals), CpuRound(m, duals));
  }

  lemma JoinRun(a: seq<Command>, b: seq<Command>, d: seq<Command>, x: seq<Dispatch>, y: seq<Dispatch>)
    requires Dispatches(a) == x && Dispatches(b) == [] && Dispatches(d) == y
    ensures Dispatches(a + b + [ListBegin] + d) == x + y
  {
    assert Dispatches([ListBegin]) == [];
    hide Dispatches;
    DispatchesAppend4(a, b, [ListBegin], d);
  }

  /** AvbdRd::run means AvbdCpu::run's order.  For every mesh, iteration count and
      duals flag, however the device interleaves what the hand-placed barriers
      leave unordered, the recording ends in a memory exactly when its commands in
      recording order do, and its dispatches in recording order are AvbdCpu's. */
  lemma RunMeansCpuOrder(w: Machine, m: Mesh, iters: nat, duals: bool, dirty: bool, mem: Memory, f: Memory)
    requires DistinctBuffers(w) && InBuffers(w) && ValidMesh(m) && iters >= 1
    ensures var cmds := Run(m, iters, duals, dirty);
            && AllGood(Parts(cmds))
            && (DeviceRun(TaskParts(w, Parts(cmds)), mem, f) <==> InOrder(TasksOf(w, Work(cmds)), mem, f))
            && Dispatches(cmds) == CpuRun(m, iters, duals)
  {
    RunClean(m, iters, duals, dirty);
    RunIsCpu(m, iters, duals, dirty);
    SeparatedIsInOrder(w, Run(m, iters, duals, dirty), mem, f);
  }

  // --- the backward pass in AvbdCpu's order -----------------------------------------------

  lemma OnlyOnRd(n: nat, d: Dispatch)
    ensures AllOnRd(Only(n, d)) == if n > 0 && d.threads > 0 then [OnRd(d)] else []
  {
    assert AllOnRd([d])[0] == OnRd(d);
  }

  lemma BackwardGathersAreCpu(m: Mesh)
    ensures Started(BackwardGathers(m)) == CpuBackwardGathers(m)
  {
    hide Started;
    Started5(GatherSpringBwdD(m), GatherAttachBwdD(m), GatherTriBwdD(m), GatherBendBwdD(m), InitBwdD(m));
  }

  lemma BackwardForcesAreCpu(m: Mesh)
    ensures Started(BackwardForces(m)) == CpuBackwardForces(m)
  {
    hide Started;
    Started5(AttachForceBwdD(m), SpringForceBwdD(m), MembraneForceBwdD(m), BendingForceBwdD(m), InitBwdD(m));
  }

  lemma SameOnRd(ds: seq<Dispatch>)
    requires forall i :: 0 <= i < |ds| ==> ds[i].kernel != Saxpby && ds[i].site != SCATTER
    ensures AllOnRd(ds) == ds
  {
  }

  lemma GathersSameOnRd(m: Mesh)
    ensures AllOnRd(CpuBackwardGathers(m)) == CpuBackwardGathers(m)
  {
    SameOnRd(CpuBackwardGathers(m));
  }

  lemma ForcesSameOnRd(m: Mesh)
    ensures AllOnRd(CpuBackwardForces(m)) == CpuBackwardForces(m)
  {
    SameOnRd(CpuBackwardForces(m));
  }

  lemma DispatchesOne(d: Dispatch)
    ensures Dispatches(Segment([d])) == Only(1, d)
  {
    DispatchesOfAll([d]);
    StartedPush([], d, [d]);
  }

  lemma PrologueIsCpu(m: Mesh)
    ensures Dispatches(Segment([DeltaD(m)]) + Segment([SolveApplyBwdD(m)])) == AllOnRd(CpuPrologue(m))
  {
    hide Dispatches, Segment, AllOnRd;
    DispatchesAppend(Segment([DeltaD(m)]), Segment([SolveApplyBwdD(m)]));
    DispatchesOne(DeltaD(m));
    DispatchesOne(SolveApplyBwdD(m));
    var d := Dispatch(Saxpby, SAX_DELTA, 3 * m.nVerts, [Positions, PositionsPre], [DeltaX]);
    OnlyOnRd(m.nVerts, d);
    OnlyOnRd(m.nVerts, SolveApplyBwdD(m));
    AllOnRdAppend(Only(m.nVerts, d), Only(m.nVerts, SolveApplyBwdD(m)));
  }

  lemma SumIsCpu(m: Mesh)
    ensures Dispatches(Emit(SumD(m))) == AllOnRd(CpuSum(m))
  {
  }

  lemma OutIsCpu(m: Mesh)
    ensures Dispatches(Emit(OutD(m))) == AllOnRd(CpuOut(m))
  {
  }

  lemma ScattersAreCpu(m: Mesh)
    ensures Dispatches(Scatters(m)) == AllOnRd(CpuSum(m)) + AllOnRd(CpuScatters(m))
  {
    var e: seq<Command> := if m.nSprings == 0 && m.nTri == 0 && m.nBend == 0 then [Barrier] else [];
    assert Dispatches(e) == [];
    hide Dispatches, When, Segment, AllOnRd, Only, CpuScatters, CpuSum, ScatterSpringD, ScatterTriD, ScatterBendD, SumD;
    SumIsCpu(m);
    DispatchesWhen(m.nSprings, ScatterSpringD(m));
    DispatchesWhen(m.nTri, ScatterTriD(m));
    DispatchesWhen(m.nBend, ScatterBendD(m));
    ScatterListIsCpu(m);
    var a, b := When(m.nSprings, Segment([ScatterSpringD(m)])), When(m.nTri, Segment([ScatterTriD(m)]));
    var c := When(m.nBend, Segment([ScatterBendD(m)]));
    JoinScatters(Emit(SumD(m)), a, b, c, e, Only(m.nSprings, ScatterSpringD(m)), Only(m.nTri, ScatterTriD(m)), Only(m.nBend, ScatterBendD(m)));
  }

  lemma JoinScatters(sum: seq<Command>, a: seq<Command>, b: seq<Command>, c: seq<Command>, e: seq<Command>,
                     x: seq<Dispatch>, y: seq<Dispatch>, z: seq<Dispatch>)
    requires Dispatches(a) == x && Dispatches(b) == y && Dispatches(c) == z && Dispatches(e) == []
    ensures Dispatches(sum + a + b + c + e) == Dispatches(sum) + (x + y + z)
  {
    hide Dispatches;
    DispatchesAppend4(sum, a, b, c);
    DispatchesAppend(sum + a + b + c, e);
  }

  lemma ScatterOnRd(n: nat, d: Dispatch, x: Buf, h: Buf, off: Buf, idx: Buf, role: Buf)
    requires d.kernel != Saxpby && d.site == SCATTER && d.loads == [x, h, off, idx, role, IdentPerm]
    ensures AllOnRd(Only(n, d)) == Only(n, d.(loads := [x, h, off, idx, role, VertPerm]))
  {
    OnlyOnRd(n, d);
    assert d.loads[5 := VertPerm] == [x, h, off, idx, role, VertPerm];
  }

  lemma ScatterListIsCpu(m: Mesh)
    ensures Only(m.nSprings, ScatterSpringD(m)) + Only(m.nTri, ScatterTriD(m)) + Only(m.nBend, ScatterBendD(m)) ==
            AllOnRd(CpuScatters(m))
  {
    hide AllOnRd, Only;
    var s := Dispatch(GatherSpring, SCATTER, m.nVerts, [VSpringPd, VSpringHess, SpOff, SpIdx, SpRole, IdentPerm], [VPosGrad, HJunk]);
    var t := Dispatch(GatherTri, SCATTER, m.nVerts, [VTriP, VTriHess, TriOff, TriIdxC, TriRole, IdentPerm], [VPosGrad, HJunk]);
    var b := Dispatch(GatherBend, SCATTER, m.nVerts, [VBendP, VBendHess, BdOff, BdIdxC, BdRole, IdentPerm], [VPosGrad, HJunk]);
    ScatterOnRd(m.nSprings, s, VSpringPd, VSpringHess, SpOff, SpIdx, SpRole);
    ScatterOnRd(m.nTri, t, VTriP, VTriHess, TriOff, TriIdxC, TriRole);
    ScatterOnRd(m.nBend, b, VBendP, VBendHess, BdOff, BdIdxC, BdRole);
    AllOnRdAppend(Only(m.nSprings, s), Only(m.nTri, t));
    AllOnRdAppend(Only(m.nSprings, s) + Only(m.nTri, t), Only(m.nBend, b));
  }

  /** The recorded backward pass is AvbdCpu::stepBackward's dispatches in its order, but
      for the sum of the inertial and direct paths, which goes before the scatters. */
  lemma BackwardIsCpu(m: Mesh)
    ensures CpuBackward(m) == CpuPrologue(m) + CpuBackwardGathers(m) + CpuBackwardForces(m) + CpuScatters(m) + CpuSum(m) + CpuOut(m)
    ensures Dispatches(Backward(m)) ==
            AllOnRd(CpuPrologue(m) + CpuBackwardGathers(m) + CpuBackwardForces(m) + CpuSum(m) + CpuScatters(m) + CpuOut(m))
  {
    PrologueIsCpu(m);
    DispatchesOfAll(BackwardGathers(m));
    DispatchesOfAll(BackwardForces(m));
    BackwardGathersAreCpu(m);
    BackwardForcesAreCpu(m);
    GathersSameOnRd(m);
    ForcesSameOnRd(m);
    ScattersAreCpu(m);
    OutIsCpu(m);
    hide Dispatches, Segment, Scatters, AllOnRd, BackwardGathers, BackwardForces, Emit, CpuPrologue, CpuBackwardGathers,
      CpuBackwardForces, CpuScatters, CpuSum, CpuOut;
    var a, b := Segment([DeltaD(m)]), Segment([SolveApplyBwdD(m)]);
    var c, d := Segment(BackwardGathers(m)), Segment(BackwardForces(m));
    DispatchesAppend4(a + b, c, d, Scatters(m));
    DispatchesAppend(a + b + c + d + Scatters(m), Emit(OutD(m)));
    AllOnRdAppend4(CpuPrologue(m), CpuBackwardGathers(m), CpuBackwardForces(m), CpuSum(m), CpuScatters(m), CpuOut(m));
  }

  lemma AllOnRdAppend4(a: seq<Dispatch>, b: seq<Dispatch>, c: seq<Dispatch>, d: seq<Dispatch>, e: seq<Dispatch>, f: seq<Dispatch>)
    ensures AllOnRd(a + b + c + d + e + f) ==
            AllOnRd(a) + AllOnRd(b) + AllOnRd(c) + (AllOnRd(d) + AllOnRd(e)) + AllOnRd(f)
  {
    hide AllOnRd;
    AllOnRdAppend(a, b);
    AllOnRdAppend(a + b, c);
    AllOnRdAppend(a + b + c, d);
    AllOnRdAppend(a + b + c + d, e);
    AllOnRdAppend(a + b + c + d + e, f);
  }

  lemma {:induction false} DosAppend(a: seq<Dispatch>, b: seq<Dispatch>)
    ensures Dos(a + b) == Dos(a) + Dos(b)
  {
  }

  lemma SumMoves(m: Mesh, i: nat)
    requires i < |CpuScatters(m)|
    ensures !BufConflict(SumD(m), AllOnRd(CpuScatters(m))[i])
  {
    SumApart(m);
    ScatterListIsCpu(m);
    hide BufConflict, AllOnRd, CpuScatters, SumD, ScatterSpringD, ScatterTriD, ScatterBendD;
    var a, b, c := Only(m.nSprings, ScatterSpringD(m)), Only(m.nTri, ScatterTriD(m)), Only(m.nBend, ScatterBendD(m));
    assert (a + b + c)[i] == if i < |a| then a[i] else if i < |a| + |b| then b[i - |a|] else c[i - |a| - |b|];
  }

  lemma SumApart(m: Mesh)
    ensures !BufConflict(SumD(m), ScatterSpringD(m)) && !BufConflict(SumD(m), ScatterTriD(m)) && !BufConflict(SumD(m), ScatterBendD(m))
  {
  }

  /** Where AvbdCpu takes the sum makes no difference: a list with the sum before the
      scatters ends in a memory exactly when one with the sum after them does. */
  lemma SumCommutes(w: Machine, m: Mesh, pre: seq<Command>, x: seq<Dispatch>, post: seq<Dispatch>, mem: Memory, f: Memory)
    requires DistinctBuffers(w) && InBuffers(w) && IsWork(pre)
    ensures var sum, scatters := AllOnRd(CpuSum(m)), AllOnRd(CpuScatters(m));
            InOrder(TasksOf(w, pre + Dos(x + sum + scatters + post)), mem, f) <==>
            InOrder(TasksOf(w, pre + Dos(x + scatters + sum + post)), mem, f)
  {
    var sum, scatters := AllOnRd(CpuSum(m)), AllOnRd(CpuScatters(m));
    OnlyOnRd(m.nVerts, Dispatch(Saxpby, SAX_SUM, 3 * m.nVerts, [VPosInit, VOut], [VPosSum]));
    assert sum == Only(m.nVerts, SumD(m));
    forall i | 0 <= i < |scatters| ensures !BufConflict(SumD(m), scatters[i]) { SumMoves(m, i); }
    hide AllOnRd, CpuSum, CpuScatters, BufConflict, InOrder, SumD;
    if m.nVerts > 0 {
      MoveDispatch(w, pre, x, SumD(m), scatters, post, mem, f);
    }
  }

  lemma MoveDispatch(w: Machine, pre: seq<Command>, x: seq<Dispatch>, d: Dispatch, ds: seq<Dispatch>, post: seq<Dispatch>,
                     mem: Memory, f: Memory)
    requires DistinctBuffers(w) && InBuffers(w) && IsWork(pre)
    requires forall i :: 0 <= i < |ds| ==> !BufConflict(d, ds[i])
    ensures InOrder(TasksOf(w, pre + Dos(x + [d] + ds + post)), mem, f) <==>
            InOrder(TasksOf(w, pre + Dos(x + ds + [d] + post)), mem, f)
  {
    hide BufConflict, InOrder, StaysInside, Conflict;
    var t, ts := TaskOf(w, Do(d)), TasksOf(w, Dos(ds));
    forall i | 0 <= i < |ts| ensures StaysInside(ts[i]) && !Conflict(t, ts[i]) {
      assert StaysInside(TaskOf(w, Do(ds[i])));
      NoBufConflict(w, d, ds[i]);
    }
    TasksInFour(w, pre, x, [d], ds, post);
    TasksInFour(w, pre, x, ds, [d], post);
    assert TasksOf(w, Dos([d])) == [t];
    MoveWithin(TasksOf(w, pre + Dos(x)), t, ts, TasksOf(w, Dos(post)), mem, f);
  }

  lemma TasksInFour(w: Machine, pre: seq<Command>, x: seq<Dispatch>, y: seq<Dispatch>, z: seq<Dispatch>, post: seq<Dispatch>)
    requires IsWork(pre)
    ensures TasksOf(w, pre + Dos(x + y + z + post)) ==
            TasksOf(w, pre + Dos(x)) + (TasksOf(w, Dos(y)) + TasksOf(w, Dos(z))) + TasksOf(w, Dos(post))
  {
    hide TasksOf, Dos;
    DosAppend(x, y);
    DosAppend(x + y, z);
    DosAppend(x + y + z, post);
    assert pre + (Dos(x) + Dos(y) + Dos(z) + Dos(post)) == pre + Dos(x) + (Dos(y) + Dos(z)) + Dos(post);
    TasksAppend(w, pre + Dos(x), Dos(y) + Dos(z));
    TasksAppend(w, Dos(y), Dos(z));
    TasksAppend(w, pre + Dos(x) + (Dos(y) + Dos(z)), Dos(post));
  }

  predicate NoTransfers(cmds: seq<Command>) {
    forall c :: c in cmds ==> !Transfer(c)
  }

  lemma {:induction false} WorkIsDispatches(cmds: seq<Command>)
    requires NoTransfers(cmds)
    ensures Work(cmds) == Dos(Dispatches(cmds))
  {
    if cmds != [] {
      var init, c := cmds[..|cmds| - 1], cmds[|cmds| - 1];
      assert cmds == init + [c];
      WorkIsDispatches(init);
      DispatchesAppend(init, [c]);
      DosAppend(Dispatches(init), Dispatches([c]));
    }
  }

  lemma {:induction false} WorkAppend(a: seq<Command>, b: seq<Command>)
    ensures Work(a + b) == Work(a) + Work(b)
    decreases |b|
  {
    if b == [] {
      assert a + b == a;
    } else {
      var init, c := b[..|b| - 1], b[|b| - 1];
      assert (a + b)[..|a + b| - 1] == a + init && (a + b)[|a + b| - 1] == c;
      WorkAppend(a, init);
    }
  }

  lemma {:induction false} EmittedMovesNothing(ds: seq<Dispatch>)
    ensures NoTransfers(EmitAll(ds)) && NoTransfers(Segment(ds))
  {
    if ds != [] { EmittedMovesNothing(ds[..|ds| - 1]); }
  }

  lemma BackwardMovesNothing(m: Mesh)
    ensures NoTransfers(Backward(m))
  {
    EmittedMovesNothing([DeltaD(m)]);
    EmittedMovesNothing([SolveApplyBwdD(m)]);
    EmittedMovesNothing(BackwardGathers(m));
    EmittedMovesNothing(BackwardForces(m));
    EmittedMovesNothing([ScatterSpringD(m)]);
    EmittedMovesNothing([ScatterTriD(m)]);
    EmittedMovesNothing([ScatterBendD(m)]);
    hide Segment, BackwardGathers, BackwardForces;
  }

  /** The same for a run with the backward pass in its last list: what the device computes
      is the transfers, AvbdCpu::run's dispatches with the copies, and then
      AvbdCpu::stepBackward's dispatches in its own order. */
  lemma RunWithBackwardMeansOrder(w: Machine, m: Mesh, iters: nat, duals: bool, dirty: bool, cotangent: int, mem: Memory, f: Memory)
    requires DistinctBuffers(w) && InBuffers(w) && ValidMesh(m) && iters >= 1
    ensures var cmds := RunBackward(m, iters, duals, dirty, cotangent);
            var before := Prepare(cotangent) + Run(m, iters, duals, dirty);
            && AllGood(Parts(cmds))
            && Work(before) == [Fill(VOut, cotangent), Fill(VPosGrad, 0), Fill(HJunk, 0)] + Work(Run(m, iters, duals, dirty))
            && Dispatches(before) == CpuRun(m, iters, duals)
            && (DeviceRun(TaskParts(w, Parts(cmds)), mem, f) <==>
                InOrder(TasksOf(w, Work(before) + Dos(AllOnRd(CpuBackward(m)))), mem, f))
  {
    hide *;
    RunWithBackwardSeparated(m, iters, duals, dirty, cotangent);
    SeparatedIsInOrder(w, RunBackward(m, iters, duals, dirty, cotangent), mem, f);
    FillsDispatchNothing(cotangent);
    var before := Prepare(cotangent) + Run(m, iters, duals, dirty);
    DispatchesAppend(Prepare(cotangent), Run(m, iters, duals, dirty));
    RunIsCpu(m, iters, duals, dirty);
    assert Dispatches(before) == CpuRun(m, iters, duals);
    RunBackwardIs(m, iters, duals, dirty, cotangent);
    FillsAreWork(cotangent);
    WorkAppend(Prepare(cotangent), Run(m, iters, duals, dirty));
    BackwardMeansCpu(w, m, before, mem, f);
  }

  /** After anything, the recorded backward pass means AvbdCpu's. */
  lemma BackwardMeansCpu(w: Machine, m: Mesh, before: seq<Command>, mem: Memory, f: Memory)
    requires DistinctBuffers(w) && InBuffers(w)
    ensures InOrder(TasksOf(w, Work(before + Backward(m))), mem, f) <==>
            InOrder(TasksOf(w, Work(before) + Dos(AllOnRd(CpuBackward(m)))), mem, f)
  {
    BackwardIsCpu(m);
    hide *;
    WorkAppend(before, Backward(m));
    BackwardMovesNothing(m);
    WorkIsDispatches(Backward(m));
    var x := CpuPrologue(m) + CpuBackwardGathers(m) + CpuBackwardForces(m);
    AllInPieces(x, CpuSum(m), CpuScatters(m), CpuOut(m));
    AllInPieces(x, CpuScatters(m), CpuSum(m), CpuOut(m));
    SumCommutes(w, m, Work(before), AllOnRd(x), AllOnRd(CpuOut(m)), mem, f);
  }

  lemma FillsAreWork(cotangent: int)
    ensures Work(Prepare(cotangent)) == [Fill(VOut, cotangent), Fill(VPosGrad, 0), Fill(HJunk, 0)]
  {
    var a, b, c := [Fill(VOut, cotangent)], [Fill(VPosGrad, 0)], [Fill(HJunk, 0)];
    assert Prepare(cotangent) == a + b + c;
    WorkAppend(a, b);
    WorkAppend(a + b, c);
  }

  lemma FillsDispatchNothing(cotangent: int)
    ensures Dispatches(Prepare(cotangent)) == []
  {
    var a, b, c := [Fill(VOut, cotangent)], [Fill(VPosGrad, 0)], [Fill(HJunk, 0)];
    assert Prepare(cotangent) == a + b + c;
    DispatchesAppend(a, b);
    DispatchesAppend(a + b, c);
  }

  lemma RunBackwardIs(m: Mesh, iters: nat, duals: bool, dirty: bool, cotangent: int)
    requires ValidMesh(m) && iters >= 1
    ensures RunBackward(m, iters, duals, dirty, cotangent) == (Prepare(cotangent) + Run(m, iters, duals, dirty)) + Backward(m)
  {
  }

  lemma AllInPieces(a: seq<Dispatch>, b: seq<Dispatch>, c: seq<Dispatch>, d: seq<Dispatch>)
    ensures AllOnRd(a + b + c + d) == AllOnRd(a) + AllOnRd(b) + AllOnRd(c) + AllOnRd(d)
  {
    hide AllOnRd;
    AllOnRdAppend(a, b);
    AllOnRdAppend(a + b, c);
    AllOnRdAppend(a + b + c, d);
  }

  // --- the recorder ------------------------------------------------------------------

  /** AvbdRd's recording state: what the open graph holds so far, and whether a
      dual update ran since the duals were last copied. */
  class AvbdRd {
    const mesh: Mesh
    var cmds: seq<Command>
    var lambdasDirty: bool
    var hasStep: bool

    constructor (m: Mesh)
      requires ValidMesh(m)
      ensures mesh == m && cmds == [] && !lambdasDirty && !hasStep
    {
      mesh, cmds, lambdasDirty, hasStep := m, [], false, false;
    }

    method Record(d: Dispatch)
      modifies `cmds
      ensures cmds == old(cmds) + Emit(d)
    {
      if d.threads == 0 {
        return;
      }
      cmds := cmds + [Do(d)];
    }

    method Fence()
      modifies `cmds
      ensures cmds == old(cmds) + [Barrier]
    {
      cmds := cmds + [Barrier];
    }

    /** The colour's init and force kernels, one segment. */
    method RecordForces(k: nat, count: nat)
      modifies `cmds
      ensures cmds == old(cmds) + Segment(Forces(mesh, k, count))
    {
      hide Emit, EmitAll;
      var d1, d2, d3, d4, d5 := InitD(k, count), SpringForceD(mesh), AttachForceD(mesh), MembraneForceD(mesh), BendingForceD(mesh);
      EmitNone();
      EmitPush([], d1, [d1]);
      EmitPush([d1], d2, [d1, d2]);
      EmitPush([d1, d2], d3, [d1, d2, d3]);
      EmitPush([d1, d2, d3], d4, [d1, d2, d3, d4]);
      EmitPush([d1, d2, d3, d4], d5, [d1, d2, d3, d4, d5]);
      Record(d1);
      assert cmds == old(cmds) + EmitAll([d1]);
      Record(d2);
      assert cmds == old(cmds) + EmitAll([d1, d2]);
      Record(d3);
      assert cmds == old(cmds) + EmitAll([d1, d2, d3]);
      Record(d4);
      assert cmds == old(cmds) + EmitAll([d1, d2, d3, d4]);
      Record(d5);
      assert cmds == old(cmds) + EmitAll([d1, d2, d3, d4, d5]);
      Fence();
    }

    /** A kernel with a barrier of its own, when its family has constraints. */
    method RecordFenced(n: nat, d: Dispatch)
      modifies `cmds
      ensures cmds == old(cmds) + When(n, Segment([d]))
    {
      if n > 0 {
        Record(d);
        Fence();
        EmitNone();
        EmitPush([], d, [d]);
      }
    }

    method RecordGathers(k: nat, count: nat)
      modifies `cmds
      ensures cmds == old(cmds) + Gathers(mesh, k, count)
    {
      hide When, Segment;
      RecordFenced(mesh.nSprings, GatherSpringD(k, count));
      RecordFenced(mesh.nAttach, GatherAttachD(k, count));
      RecordFenced(mesh.nTri, GatherTriD(k, count));
      RecordFenced(mesh.nBend, GatherBendD(k, count));
      Regroup(old(cmds), When(mesh.nSprings, Segment([GatherSpringD(k, count)])),
              When(mesh.nAttach, Segment([GatherAttachD(k, count)])),
              When(mesh.nTri, Segment([GatherTriD(k, count)])), When(mesh.nBend, Segment([GatherBendD(k, count)])));
    }

    method RecordIteration()
      requires ValidMesh(mesh)
      modifies `cmds
      ensures cmds == old(cmds) + Iteration(mesh)
    {
      hide *;
      NoColors(mesh, cmds);
      var nc := |mesh.colorOffsets| - 1;
      for k := 0 to nc
        invariant nc == |mesh.colorOffsets| - 1 && cmds == old(cmds) + Colors(mesh, k)
      {
        RecordColor(k);
        AddColor(old(cmds), mesh, k);
      }
      AllColors(mesh);
    }

    /** A colour that has vertices. */
    method RecordColor(k: nat)
      requires ValidMesh(mesh) && k < NumColors(mesh)
      modifies `cmds
      ensures cmds == old(cmds) + Color(mesh, k)
    {
      hide Segment, Forces, Gathers;
      var count := mesh.colorOffsets[k + 1] - mesh.colorOffsets[k];
      if count > 0 {
        RecordForces(k, count);
        RecordGathers(k, count);
        RecordFenced(1, SolveApplyD(k, count));
      }
    }

    method RecordDuals()
      modifies `cmds, `lambdasDirty
      ensures cmds == old(cmds) + Duals(mesh) && lambdasDirty
    {
      hide Emit, EmitAll;
      var d1, d2, d3 := AttachDualD(mesh), MembraneDualD(mesh), BendingDualD(mesh);
      EmitNone();
      EmitPush([], d1, [d1]);
      EmitPush([d1], d2, [d1, d2]);
      EmitPush([d1, d2], d3, [d1, d2, d3]);
      lambdasDirty := true;
      Record(d1);
      assert cmds == old(cmds) + EmitAll([d1]);
      Record(d2);
      assert cmds == old(cmds) + EmitAll([d1, d2]);
      Record(d3);
      assert cmds == old(cmds) + EmitAll([d1, d2, d3]);
      Fence();
    }

    method SnapshotPreStep()
      modifies this
      ensures cmds == old(cmds) + Snapshot(mesh, old(lambdasDirty)) && !lambdasDirty && hasStep
    {
      cmds := cmds + [Copy(Positions, PositionsPre)];
      if lambdasDirty {
        if mesh.nTri > 0 {
          cmds := cmds + [Copy(TriL0, TriL0Pre)];
          cmds := cmds + [Copy(TriL1, TriL1Pre)];
        }
        if mesh.nBend > 0 {
          cmds := cmds + [Copy(BdLambda, BdLambdaPre)];
        }
        lambdasDirty := false;
      }
      hasStep := true;
    }

    /** Iterations 1..n-1 in one list, the snapshot, the last iteration in a list
        left open. */
    method RecordRun(iters: nat, duals: bool)
      requires ValidMesh(mesh) && iters >= 1
      modifies this
      ensures cmds == old(cmds) + Run(mesh, iters, duals, old(lambdasDirty))
      ensures lambdasDirty == duals && hasStep
    {
      hide Iteration, Duals, Snapshot;
      if iters > 1 {
        cmds := cmds + [ListBegin];
        for it := 0 to iters - 1
          invariant cmds == old(cmds) + ([ListBegin] + Repeat(mesh, duals, it))
          invariant lambdasDirty == (old(lambdasDirty) || (duals && it > 0))
        {
          ghost var before := cmds;
          RecordIteration();
          if duals {
            RecordDuals();
          }
          assert cmds == before + Round(mesh, duals);
          RegroupRepeat(old(cmds), mesh, duals, it);
        }
        cmds := cmds + [ListEnd];
      }
      assert cmds == old(cmds) + FirstList(mesh, iters, duals);
      ghost var first, dirty := cmds, lambdasDirty;
      SnapshotPreStep();
      cmds := cmds + [ListBegin];
      ghost var before := cmds;
      RecordIteration();
      if duals {
        RecordDuals();
      }
      assert cmds == before + Round(mesh, duals);
      hide Round, FirstList;
      Regroup(old(cmds), FirstList(mesh, iters, duals), Snapshot(mesh, dirty), [ListBegin], Round(mesh, duals));
    }

    // --- the backward pass ------------------------------------------------------------------

    method RecordBackwardGathers()
      modifies `cmds
      ensures cmds == old(cmds) + Segment(BackwardGathers(mesh))
    {
      hide Emit, EmitAll;
      var d1, d2, d3, d4 := GatherSpringBwdD(mesh), GatherAttachBwdD(mesh), GatherTriBwdD(mesh), GatherBendBwdD(mesh);
      EmitNone();
      EmitPush([], d1, [d1]);
      EmitPush([d1], d2, [d1, d2]);
      EmitPush([d1, d2], d3, [d1, d2, d3]);
      EmitPush([d1, d2, d3], d4, [d1, d2, d3, d4]);
      Record(d1);
      assert cmds == old(cmds) + EmitAll([d1]);
      Record(d2);
      assert cmds == old(cmds) + EmitAll([d1, d2]);
      Record(d3);
      assert cmds == old(cmds) + EmitAll([d1, d2, d3]);
      Record(d4);
      assert cmds == old(cmds) + EmitAll([d1, d2, d3, d4]);
      Fence();
    }

    method RecordBackwardForces()
      modifies `cmds
      ensures cmds == old(cmds) + Segment(BackwardForces(mesh))
    {
      hide Emit, EmitAll;
      var d1, d2, d3 := AttachForceBwdD(mesh), SpringForceBwdD(mesh), MembraneForceBwdD(mesh);
      var d4, d5 := BendingForceBwdD(mesh), InitBwdD(mesh);
      EmitNone();
      EmitPush([], d1, [d1]);
      EmitPush([d1], d2, [d1, d2]);
      EmitPush([d1, d2], d3, [d1, d2, d3]);
      EmitPush([d1, d2, d3], d4, [d1, d2, d3, d4]);
      EmitPush([d1, d2, d3, d4], d5, [d1, d2, d3, d4, d5]);
      Record(d1);
      assert cmds == old(cmds) + EmitAll([d1]);
      Record(d2);
      assert cmds == old(cmds) + EmitAll([d1, d2]);
      Record(d3);
      assert cmds == old(cmds) + EmitAll([d1, d2, d3]);
      Record(d4);
      assert cmds == old(cmds) + EmitAll([d1, d2, d3, d4]);
      Record(d5);
      assert cmds == old(cmds) + EmitAll([d1, d2, d3, d4, d5]);
      Fence();
    }

    /** The sum, then the scatters one after another. */
    method RecordScatters()
      modifies `cmds
      ensures cmds == old(cmds) + Scatters(mesh)
    {
      hide When, Segment, Emit;
      var alone := mesh.nSprings == 0 && mesh.nTri == 0 && mesh.nBend == 0;
      Record(SumD(mesh));
      RecordFenced(mesh.nSprings, ScatterSpringD(mesh));
      RecordFenced(mesh.nTri, ScatterTriD(mesh));
      RecordFenced(mesh.nBend, ScatterBendD(mesh));
      if alone { Fence(); }
      Regroup5(old(cmds), Emit(SumD(mesh)), When(mesh.nSprings, Segment([ScatterSpringD(mesh)])), When(mesh.nTri, Segment([ScatterTriD(mesh)])),
               When(mesh.nBend, Segment([ScatterBendD(mesh)])), if alone then [Barrier] else []);
    }

    method RecordBackward()
      modifies `cmds
      ensures cmds == old(cmds) + Backward(mesh)
    {
      hide Segment, Scatters, Emit, BackwardGathers, BackwardForces, EmitAll;
      RecordOne(DeltaD(mesh));
      RecordOne(SolveApplyBwdD(mesh));
      RecordBackwardGathers();
      RecordBackwardForces();
      ghost var before := cmds;
      Regroup(old(cmds), Segment([DeltaD(mesh)]), Segment([SolveApplyBwdD(mesh)]), Segment(BackwardGathers(mesh)), Segment(BackwardForces(mesh)));
      RecordScatters();
      Record(OutD(mesh));
      Regroup3(old(cmds), Segment([DeltaD(mesh)]) + Segment([SolveApplyBwdD(mesh)]) + Segment(BackwardGathers(mesh)) + Segment(BackwardForces(mesh)),
               Scatters(mesh), Emit(OutD(mesh)));
    }

    method RecordOne(d: Dispatch)
      modifies `cmds
      ensures cmds == old(cmds) + Segment([d])
    {
      Record(d);
      Fence();
      EmitNone();
      EmitPush([], d, [d]);
    }

    /** runWithBackward: the transfers, the run, then the backward pass in the list the run
        left open. */
    method RecordRunWithBackward(iters: nat, duals: bool, cotangent: int)
      requires ValidMesh(mesh) && iters >= 1
      modifies this
      ensures cmds == old(cmds) + RunBackward(mesh, iters, duals, old(lambdasDirty), cotangent)
      ensures lambdasDirty == duals && hasStep
    {
      hide Run, Backward, Prepare;
      hasStep := true;
      PrepareBackward(cotangent);
      RecordRun(iters, duals);
      RecordBackward();
      Regroup3(old(cmds), Prepare(cotangent), Run(mesh, iters, duals, old(lambdasDirty)), Backward(mesh));
    }

    /** Transfers only, before any list. */
    method PrepareBackward(cotangent: int)
      requires hasStep
      modifies `cmds
      ensures cmds == old(cmds) + Prepare(cotangent)
    {
      cmds := cmds + [Fill(VOut, cotangent)];
      cmds := cmds + [Fill(VPosGrad, 0)];
      cmds := cmds + [Fill(HJunk, 0)];
    }
  }

  lemma NoColors(m: Mesh, o: seq<Command>)
    requires ValidMesh(m)
    ensures NumColors(m) == |m.colorOffsets| - 1 >= 0 && o + Colors(m, 0) == o
  {
  }

  lemma AddColor(o: seq<Command>, m: Mesh, k: nat)
    requires ValidMesh(m) && k < NumColors(m)
    ensures o + Colors(m, k) + Color(m, k) == o + Colors(m, k + 1)
  {
    hide Color;
  }

  lemma AllColors(m: Mesh)
    requires ValidMesh(m)
    ensures Iteration(m) == Colors(m, |m.colorOffsets| - 1)
  {
    hide Colors;
  }

  lemma Regroup3(o: seq<Command>, a: seq<Command>, b: seq<Command>, c: seq<Command>)
    ensures o + a + b + c == o + (a + b + c)
  {
  }

  lemma Regroup5(o: seq<Command>, a: seq<Command>, b: seq<Command>, c: seq<Command>, d: seq<Command>, e: seq<Command>)
    ensures o + a + b + c + d + e == o + (a + b + c + d + e)
  {
    Regroup(o, a, b, c, d);
    assert o + (a + b + c + d) + e == o + ((a + b + c + d) + e);
  }

  lemma Regroup(o: seq<Command>, a: seq<Command>, b: seq<Command>, c: seq<Command>, d: seq<Command>)
    ensures o + a + b + c + d == o + (a + b + c + d)
  {
  }

  lemma RegroupRepeat(o: seq<Command>, m: Mesh, duals: bool, n: nat)
    requires ValidMesh(m)
    ensures o + ([ListBegin] + Repeat(m, duals, n)) + Round(m, duals) == o + ([ListBegin] + Repeat(m, duals, n + 1))
  {
    hide Round;
  }

  lemma EmitNone()
    ensures EmitAll([]) == []
  {
  }

  lemma EmitPush(ds: seq<Dispatch>, d: Dispatch, longer: seq<Dispatch>)
    requires longer == ds + [d]
    ensures EmitAll(longer) == EmitAll(ds) + Emit(d)
  {
    assert (ds + [d])[..|ds|] == ds;
  }
}
