/** The pre-step copies of the duals, lazy and eager. */
module LazyDuals {

  // AvbdCpu copies them before every iteration; AvbdRd before the last recorded
  // iteration only, and only when a dual update ran since the last copy.  Over every
  // sequence of uploads, steps, dual steps and runs, both keep the same memory, copies
  // included.

  import opened AvbdCpuOrder
  import opened AvbdKernels
  import opened AvbdRecord

  /** Whole-buffer values; a kernel's result is any function of what it can see. */
  type Store = map<Buf, int>
  type Semantics = (Dispatch, Store, Buf) -> int

  function Get(m: Store, b: Buf): int {
    if b in m then m[b] else 0
  }

  function Seen(m: Store, d: Dispatch): Store {
    map b | b in d.loads + d.stores :: Get(m, b)
  }

  function RunDispatch(sem: Semantics, d: Dispatch, m: Store): Store {
    m + (map b | b in d.stores :: sem(d, Seen(m, d), b))
  }

  function RunAll(sem: Semantics, ds: seq<Dispatch>, m: Store): Store {
    if ds == [] then m else RunAll(sem, ds[1..], RunDispatch(sem, ds[0], m))
  }

  function CopyBuf(m: Store, src: Buf, dst: Buf): Store {
    m[dst := Get(m, src)]
  }

  function RunCommand(sem: Semantics, c: Command, m: Store): Store {
    match c
    case Do(d) => RunDispatch(sem, d, m)
    case Copy(src, dst) => CopyBuf(m, src, dst)
    case Fill(dst, value) => m[dst := value]
    case _ => m
  }

  function RunCommands(sem: Semantics, cs: seq<Command>, m: Store): Store {
    if cs == [] then m else RunCommands(sem, cs[1..], RunCommand(sem, cs[0], m))
  }

  // --- the two backends ----------------------------------------------------------

  /** Host-side operations.  `Upload` writes buffers that hold no duals and may
      change the mesh but not its triangle and bending counts. */
  datatype Op =
    | Upload(writes: Store, mesh: Mesh)
    | UploadTriangles(n: nat, writes: Store)
    | UploadBendings(n: nat, writes: Store)
    | Step | StepDualAttachments | StepDualMembrane | StepDualBending
    | RunIters(iters: nat, duals: bool)

  /** The duals that have a pre-step copy, and the copies. */
  const DUALS: set<Buf> := {TriL0, TriL1, BdLambda}
  const COPIES: set<Buf> := {PositionsPre, TriL0Pre, TriL1Pre, BdLambdaPre}

  predicate LeavesCopies(w: Store) {
    w.Keys !! DUALS + COPIES
  }

  predicate ValidOp(op: Op, m: Mesh) {
    match op
    case Upload(w, m') => LeavesCopies(w) && ValidMesh(m') && m'.nTri == m.nTri && m'.nBend == m.nBend
    case UploadTriangles(_, w) => LeavesCopies(w)
    case UploadBendings(_, w) => LeavesCopies(w)
    case _ => true
  }

  datatype Cpu = Cpu(mesh: Mesh, mem: Store, stepped: bool)
  datatype Rd = Rd(mesh: Mesh, mem: Store, dirty: bool, stepped: bool)

  /** Buffers of n zero duals; zero(0) stands for no buffer. */
  type Zeros = nat -> int

  function ZeroTri(m: Store, z: int): Store {
    m[TriL0 := z][TriL1 := z][TriL0Pre := z][TriL1Pre := z]
  }

  function ZeroBend(m: Store, z: int): Store {
    m[BdLambda := z][BdLambdaPre := z]
  }

  /** step_impl's copies, taken before every iteration. */
  function Eager(m: Store): Store {
    CopyBuf(CopyBuf(CopyBuf(CopyBuf(m, Positions, PositionsPre), TriL0, TriL0Pre), TriL1, TriL1Pre), BdLambda, BdLambdaPre)
  }

  function CpuRounds(sem: Semantics, m: Mesh, iters: nat, duals: bool, mem: Store): Store
    requires ValidMesh(m)
  {
    if iters == 0 then mem
    else RunAll(sem, CpuRound(m, duals), Eager(CpuRounds(sem, m, iters - 1, duals, mem)))
  }

  function CpuStep(sem: Semantics, zero: Zeros, op: Op, s: Cpu): Cpu
    requires ValidMesh(s.mesh) && ValidOp(op, s.mesh)
  {
    match op
    case Upload(w, m') => s.(mesh := m', mem := s.mem + w)
    case UploadTriangles(n, w) => s.(mesh := s.mesh.(nTri := n), mem := ZeroTri(s.mem + w, zero(n)))
    case UploadBendings(n, w) => s.(mesh := s.mesh.(nBend := n), mem := ZeroBend(s.mem + w, zero(n)))
    case Step => s.(mem := CpuRounds(sem, s.mesh, 1, false, s.mem), stepped := true)
    case StepDualAttachments => s.(mem := RunAll(sem, CpuAttachDual(s.mesh), s.mem))
    case StepDualMembrane => s.(mem := RunAll(sem, CpuMembraneDual(s.mesh), s.mem))
    case StepDualBending => s.(mem := RunAll(sem, CpuBendingDual(s.mesh), s.mem))
    case RunIters(iters, duals) => s.(mem := CpuRounds(sem, s.mesh, iters, duals, s.mem), stepped := s.stepped || iters >= 1)
  }

  /** AvbdRd: what RecordRun records, run in recording order. */
  function RdRun(sem: Semantics, s: Rd, iters: nat, duals: bool): Rd
    requires ValidMesh(s.mesh) && iters >= 1
  {
    s.(mem := RunCommands(sem, Run(s.mesh, iters, duals, s.dirty), s.mem), dirty := duals, stepped := true)
  }

  function RdStep(sem: Semantics, zero: Zeros, op: Op, s: Rd): Rd
    requires ValidMesh(s.mesh) && ValidOp(op, s.mesh)
  {
    match op
    case Upload(w, m') => s.(mesh := m', mem := s.mem + w)
    case UploadTriangles(n, w) => s.(mesh := s.mesh.(nTri := n), mem := ZeroTri(s.mem + w, zero(n)))
    case UploadBendings(n, w) => s.(mesh := s.mesh.(nBend := n), mem := ZeroBend(s.mem + w, zero(n)))
    case Step => RdRun(sem, s, 1, false)
    case StepDualAttachments =>
      if s.mesh.nAttach == 0 then s else s.(mem := RunDispatch(sem, AttachDualD(s.mesh), s.mem))
    case StepDualMembrane =>
      if s.mesh.nTri == 0 then s else s.(mem := RunDispatch(sem, MembraneDualD(s.mesh), s.mem), dirty := true)
    case StepDualBending =>
      if s.mesh.nBend == 0 then s else s.(mem := RunDispatch(sem, BendingDualD(s.mesh), s.mem), dirty := true)
    case RunIters(iters, duals) => if iters < 1 then s else RdRun(sem, s, iters, duals)
  }

  // --- the invariant ---------------------------------------------------------------

  /** The copies stand for the duals: of a family with no constraints always, of
      every family while no dual update ran since the last copy. */
  predicate CopiesHold(m: Mesh, mem: Store, dirty: bool) {
    && (m.nTri == 0 || !dirty ==> Get(mem, TriL0) == Get(mem, TriL0Pre) && Get(mem, TriL1) == Get(mem, TriL1Pre))
    && (m.nBend == 0 || !dirty ==> Get(mem, BdLambda) == Get(mem, BdLambdaPre))
  }

  predicate Allocated(mem: Store) {
    COPIES <= mem.Keys
  }

  /** Equal everywhere but in the pre-step positions. */
  predicate SameButPre(m: Store, m': Store) {
    forall b :: b != PositionsPre ==> (b in m <==> b in m') && (b in m ==> b in m' && m[b] == m'[b])
  }

  /** The same buffers, but for the pre-step positions before the first step: setup makes
      the device's and clears the CPU's. */
  predicate Related(r: Rd, c: Cpu) {
    && r.mesh == c.mesh && r.stepped == c.stepped && SameButPre(r.mem, c.mem) && (r.stepped ==> r.mem == c.mem)
    && ValidMesh(r.mesh) && Allocated(r.mem) && CopiesHold(r.mesh, r.mem, r.dirty)
  }

  /** Equal everywhere but in the copies. */
  predicate SameButCopies(m: Store, m': Store) {
    && m.Keys + COPIES == m'.Keys + COPIES
    && forall b :: b in m && b in m' && b !in COPIES ==> m[b] == m'[b]
  }

  // --- forward dispatches ------------------------------------------------------------

  predicate Apart(bufs: seq<Buf>, bs: set<Buf>) {
    (set b | b in bufs) !! bs
  }

  predicate AvoidsCopies(d: Dispatch) {
    Apart(d.loads, COPIES) && Apart(d.stores, COPIES)
  }

  predicate AllAvoid(ds: seq<Dispatch>) {
    forall i :: 0 <= i < |ds| ==> AvoidsCopies(ds[i])
  }

  predicate NoneStores(ds: seq<Dispatch>, bs: set<Buf>) {
    forall i :: 0 <= i < |ds| ==> Apart(ds[i].stores, bs)
  }

  lemma OnlyAvoids(n: nat, d: Dispatch, bs: set<Buf>)
    requires AvoidsCopies(d) && Apart(d.stores, bs)
    ensures AllAvoid(Only(n, d)) && NoneStores(Only(n, d), bs)
  {
    hide AvoidsCopies, Apart;
  }

  lemma MeshForcesAvoid(m: Mesh)
    ensures AvoidsCopies(MembraneForceD(m)) && Apart(MembraneForceD(m).stores, DUALS)
    ensures AvoidsCopies(BendingForceD(m)) && Apart(BendingForceD(m).stores, DUALS)
  {
  }

  lemma ForcesAvoid(m: Mesh, k: int, n: nat)
    ensures AllAvoid(CpuForces(m, k, n)) && NoneStores(CpuForces(m, k, n), DUALS)
  {
    assert AvoidsCopies(InitD(k, n)) && Apart(InitD(k, n).stores, DUALS);
    assert AvoidsCopies(SpringForceD(m)) && Apart(SpringForceD(m).stores, DUALS);
    assert AvoidsCopies(AttachForceD(m)) && Apart(AttachForceD(m).stores, DUALS);
    MeshForcesAvoid(m);
    hide AvoidsCopies, Apart, Only;
    OnlyAvoids(m.nSprings, SpringForceD(m), DUALS);
    OnlyAvoids(m.nAttach, AttachForceD(m), DUALS);
    OnlyAvoids(m.nTri, MembraneForceD(m), DUALS);
    OnlyAvoids(m.nBend, BendingForceD(m), DUALS);
    var a, b, c := [InitD(k, n)], Only(m.nSprings, SpringForceD(m)), Only(m.nAttach, AttachForceD(m));
    var d, e := Only(m.nTri, MembraneForceD(m)), Only(m.nBend, BendingForceD(m));
    AvoidAppend(a, b, DUALS);
    AvoidAppend(a + b, c, DUALS);
    AvoidAppend(a + b + c, d, DUALS);
    AvoidAppend(a + b + c + d, e, DUALS);
  }

  lemma SpringGathersAvoid(k: int, n: nat)
    ensures AvoidsCopies(GatherSpringD(k, n)) && Apart(GatherSpringD(k, n).stores, DUALS)
    ensures AvoidsCopies(GatherAttachD(k, n)) && Apart(GatherAttachD(k, n).stores, DUALS)
  {
  }

  lemma MeshGathersAvoid(k: int, n: nat)
    ensures AvoidsCopies(GatherTriD(k, n)) && Apart(GatherTriD(k, n).stores, DUALS)
    ensures AvoidsCopies(GatherBendD(k, n)) && Apart(GatherBendD(k, n).stores, DUALS)
  {
  }

  lemma GathersAvoid(m: Mesh, k: int, n: nat)
    ensures AllAvoid(CpuGathers(m, k, n)) && NoneStores(CpuGathers(m, k, n), DUALS)
  {
    SpringGathersAvoid(k, n);
    MeshGathersAvoid(k, n);
    hide AvoidsCopies, Apart, Only;
    OnlyAvoids(m.nSprings, GatherSpringD(k, n), DUALS);
    OnlyAvoids(m.nAttach, GatherAttachD(k, n), DUALS);
    OnlyAvoids(m.nTri, GatherTriD(k, n), DUALS);
    OnlyAvoids(m.nBend, GatherBendD(k, n), DUALS);
    var a, b := Only(m.nSprings, GatherSpringD(k, n)), Only(m.nAttach, GatherAttachD(k, n));
    var c, d := Only(m.nTri, GatherTriD(k, n)), Only(m.nBend, GatherBendD(k, n));
    AvoidAppend(a, b, DUALS);
    AvoidAppend(a + b, c, DUALS);
    AvoidAppend(a + b + c, d, DUALS);
  }

  lemma ColorAvoids(m: Mesh, k: nat)
    requires ValidMesh(m) && k < NumColors(m)
    ensures AllAvoid(CpuColor(m, k)) && NoneStores(CpuColor(m, k), DUALS)
  {
    var n := ColorCount(m, k);
    assert AvoidsCopies(SolveApplyD(k, n)) && Apart(SolveApplyD(k, n).stores, DUALS);
    hide AvoidsCopies, Apart, CpuForces, CpuGathers;
    ForcesAvoid(m, k, n);
    GathersAvoid(m, k, n);
    AvoidAppend(CpuForces(m, k, n), CpuGathers(m, k, n), DUALS);
    AvoidAppend(CpuForces(m, k, n) + CpuGathers(m, k, n), [SolveApplyD(k, n)], DUALS);
  }

  lemma AvoidAppend(a: seq<Dispatch>, b: seq<Dispatch>, bs: set<Buf>)
    ensures AllAvoid(a) && AllAvoid(b) ==> AllAvoid(a + b)
    ensures NoneStores(a, bs) && NoneStores(b, bs) ==> NoneStores(a + b, bs)
  {
    hide AvoidsCopies;
  }

  lemma {:induction false} ColorsAvoid(m: Mesh, k: nat)
    requires ValidMesh(m) && k <= NumColors(m)
    ensures AllAvoid(CpuColors(m, k)) && NoneStores(CpuColors(m, k), DUALS)
  {
    hide AvoidsCopies, CpuColor;
    if k != 0 {
      ColorsAvoid(m, k - 1);
      ColorAvoids(m, k - 1);
      AvoidAppend(CpuColors(m, k - 1), CpuColor(m, k - 1), DUALS);
    }
  }

  /** What the dual updates store, family by family. */
  lemma DualsAvoid(m: Mesh)
    ensures AllAvoid(CpuDuals(m))
    ensures m.nTri == 0 ==> NoneStores(CpuDuals(m), {TriL0, TriL1})
    ensures m.nBend == 0 ==> NoneStores(CpuDuals(m), {BdLambda})
  {
    var a, b, c := AttachDualD(m), MembraneDualD(m), BendingDualD(m);
    assert AvoidsCopies(a) && AvoidsCopies(b) && AvoidsCopies(c);
    assert Apart(a.stores, {TriL0, TriL1}) && Apart(a.stores, {BdLambda});
    assert Apart(b.stores, {BdLambda}) && Apart(c.stores, {TriL0, TriL1});
    hide AvoidsCopies, Apart;
  }

  lemma RoundAvoids(m: Mesh, duals: bool)
    requires ValidMesh(m)
    ensures AllAvoid(CpuRound(m, duals))
    ensures !duals ==> NoneStores(CpuRound(m, duals), DUALS)
    ensures m.nTri == 0 ==> NoneStores(CpuRound(m, duals), {TriL0, TriL1})
    ensures m.nBend == 0 ==> NoneStores(CpuRound(m, duals), {BdLambda})
  {
    ColorsAvoid(m, NumColors(m));
    DualsAvoid(m);
    hide AvoidsCopies, CpuColors, CpuDuals, Apart;
    assert forall i :: 0 <= i < |CpuColors(m, NumColors(m))| ==> Apart(CpuColors(m, NumColors(m))[i].stores, DUALS);
  }

  // --- running them ---------------------------------------------------------------------

  lemma DispatchSame(sem: Semantics, d: Dispatch, m: Store, m': Store)
    requires AvoidsCopies(d) && SameButCopies(m, m')
    ensures SameButCopies(RunDispatch(sem, d, m), RunDispatch(sem, d, m'))
  {
    forall b | b in d.loads + d.stores ensures Get(m, b) == Get(m', b) {
      assert b in m.Keys + COPIES <==> b in m'.Keys + COPIES;
    }
    assert Seen(m, d) == Seen(m', d);
  }

  /** A list of forward dispatches does not see the copies and keeps what it does
      not store. */
  lemma {:induction false} RunAllSame(sem: Semantics, ds: seq<Dispatch>, m: Store, m': Store)
    requires AllAvoid(ds) && SameButCopies(m, m')
    ensures SameButCopies(RunAll(sem, ds, m), RunAll(sem, ds, m'))
    decreases |ds|
  {
    if ds != [] {
      DispatchSame(sem, ds[0], m, m');
      RunAllSame(sem, ds[1..], RunDispatch(sem, ds[0], m), RunDispatch(sem, ds[0], m'));
    }
  }

  lemma {:induction false} RunAllKeeps(sem: Semantics, ds: seq<Dispatch>, m: Store, bs: set<Buf>)
    requires NoneStores(ds, bs)
    ensures forall b :: b in bs ==> Get(RunAll(sem, ds, m), b) == Get(m, b)
    ensures m.Keys <= RunAll(sem, ds, m).Keys
    decreases |ds|
  {
    if ds != [] {
      RunAllKeeps(sem, ds[1..], RunDispatch(sem, ds[0], m), bs);
    }
  }

  lemma AvoidMeansKeep(ds: seq<Dispatch>)
    requires AllAvoid(ds)
    ensures NoneStores(ds, COPIES)
  {
    forall i | 0 <= i < |ds| ensures Apart(ds[i].stores, COPIES) { assert AvoidsCopies(ds[i]); }
  }

  /** After a round: copies unchanged, and still equal to duals that were not updated. */
  lemma RoundKeeps(sem: Semantics, m: Mesh, duals: bool, mem: Store, dirty: bool)
    requires ValidMesh(m) && CopiesHold(m, mem, dirty) && Allocated(mem)
    ensures CopiesHold(m, RunAll(sem, CpuRound(m, duals), mem), dirty || duals)
    ensures Allocated(RunAll(sem, CpuRound(m, duals), mem))
  {
    var ds := CpuRound(m, duals);
    RoundAvoids(m, duals);
    AvoidMeansKeep(ds);
    RunAllKeeps(sem, ds, mem, COPIES);
    if !duals { RunAllKeeps(sem, ds, mem, DUALS); }
    if m.nTri == 0 { RunAllKeeps(sem, ds, mem, {TriL0, TriL1}); }
    if m.nBend == 0 { RunAllKeeps(sem, ds, mem, {BdLambda}); }
  }

  // --- commands without copies are their dispatches ---------------------------------------

  predicate NoCopies(cs: seq<Command>) {
    forall i :: 0 <= i < |cs| ==> !Transfer(cs[i])
  }

  lemma {:induction false} RunCommandsAppend(sem: Semantics, a: seq<Command>, b: seq<Command>, m: Store)
    ensures RunCommands(sem, a + b, m) == RunCommands(sem, b, RunCommands(sem, a, m))
    decreases |a|
  {
    if a == [] {
      assert a + b == b;
    } else {
      RunCommandsAppend(sem, a[1..], b, RunCommand(sem, a[0], m));
      assert (a + b)[1..] == a[1..] + b;
    }
  }

  lemma {:induction false} RunAllAppend(sem: Semantics, a: seq<Dispatch>, b: seq<Dispatch>, m: Store)
    ensures RunAll(sem, a + b, m) == RunAll(sem, b, RunAll(sem, a, m))
    decreases |a|
  {
    if a == [] {
      assert a + b == b;
    } else {
      RunAllAppend(sem, a[1..], b, RunDispatch(sem, a[0], m));
      assert (a + b)[1..] == a[1..] + b;
    }
  }

  lemma {:induction false} NoCopiesRun(sem: Semantics, cs: seq<Command>, m: Store)
    requires NoCopies(cs)
    ensures RunCommands(sem, cs, m) == RunAll(sem, Dispatches(cs), m)
    decreases |cs|
  {
    if cs != [] {
      NoCopiesRun(sem, cs[1..], RunCommand(sem, cs[0], m));
      var rest := Dispatches(cs[1..]);
      if cs[0].Do? {
        assert Dispatches(cs) == [cs[0].d] + rest && ([cs[0].d] + rest)[1..] == rest;
      } else {
        assert Dispatches(cs) == rest;
      }
    }
  }

  lemma {:induction false} EmitAllNoCopies(ds: seq<Dispatch>)
    ensures NoCopies(EmitAll(ds)) && NoCopies(Segment(ds))
  {
    if ds != [] { EmitAllNoCopies(ds[..|ds| - 1]); }
  }

  lemma NoCopiesAppend(a: seq<Command>, b: seq<Command>)
    requires NoCopies(a) && NoCopies(b)
    ensures NoCopies(a + b)
  {
  }

  lemma ColorNoCopies(m: Mesh, k: nat)
    requires ValidMesh(m) && k < NumColors(m)
    ensures NoCopies(Color(m, k))
  {
    var n := ColorCount(m, k);
    EmitAllNoCopies(Forces(m, k, n));
    EmitAllNoCopies([GatherSpringD(k, n)]);
    EmitAllNoCopies([GatherAttachD(k, n)]);
    EmitAllNoCopies([GatherTriD(k, n)]);
    EmitAllNoCopies([GatherBendD(k, n)]);
    EmitAllNoCopies([SolveApplyD(k, n)]);
    hide Segment, Forces, GatherSpringD, GatherAttachD, GatherTriD, GatherBendD, SolveApplyD, NoCopies;
    var a, b := When(m.nSprings, Segment([GatherSpringD(k, n)])), When(m.nAttach, Segment([GatherAttachD(k, n)]));
    var c, d := When(m.nTri, Segment([GatherTriD(k, n)])), When(m.nBend, Segment([GatherBendD(k, n)]));
    NoCopiesNone();
    NoCopiesAppend(a, b);
    NoCopiesAppend(a + b, c);
    NoCopiesAppend(a + b + c, d);
    NoCopiesAppend(Segment(Forces(m, k, n)), Gathers(m, k, n));
    NoCopiesAppend(Segment(Forces(m, k, n)) + Gathers(m, k, n), Segment([SolveApplyD(k, n)]));
  }

  lemma NoCopiesNone()
    ensures NoCopies([])
  {
  }

  lemma {:induction false} ColorsNoCopies(m: Mesh, k: nat)
    requires ValidMesh(m) && k <= NumColors(m)
    ensures NoCopies(Colors(m, k))
  {
    hide Color, NoCopies;
    NoCopiesNone();
    if k != 0 {
      ColorsNoCopies(m, k - 1);
      ColorNoCopies(m, k - 1);
      NoCopiesAppend(Colors(m, k - 1), Color(m, k - 1));
    }
  }

  lemma {:induction false} RepeatNoCopies(m: Mesh, duals: bool, n: nat)
    requires ValidMesh(m)
    ensures NoCopies(Round(m, duals)) && NoCopies(Repeat(m, duals, n))
  {
    ColorsNoCopies(m, NumColors(m));
    EmitAllNoCopies(DualUpdates(m));
    hide Segment, Colors;
    if n != 0 { RepeatNoCopies(m, duals, n - 1); }
  }

  // --- a run ------------------------------------------------------------------------------

  /** CpuRun's dispatches without any copies, from a memory equal but for the copies. */
  lemma {:induction false} RoundsSame(sem: Semantics, m: Mesh, n: nat, duals: bool, mem: Store, dirty: bool)
    requires ValidMesh(m) && CopiesHold(m, mem, dirty) && Allocated(mem)
    ensures SameButCopies(RunAll(sem, CpuRun(m, n, duals), mem), CpuRounds(sem, m, n, duals, mem))
    ensures CopiesHold(m, RunAll(sem, CpuRun(m, n, duals), mem), dirty || (duals && n > 0))
    ensures Allocated(RunAll(sem, CpuRun(m, n, duals), mem))
  {
    hide CpuRound, CopiesHold, Allocated, SameButCopies, RunAll, Eager;
    if n == 0 {
      NothingRun(sem, m, duals, mem);
    } else {
      RoundsSame(sem, m, n - 1, duals, mem, dirty);
      RunAllAppend(sem, CpuRun(m, n - 1, duals), CpuRound(m, duals), mem);
      OneMoreRound(sem, m, duals, RunAll(sem, CpuRun(m, n - 1, duals), mem), CpuRounds(sem, m, n - 1, duals, mem),
                   dirty || (duals && n - 1 > 0));
    }
  }

  lemma NothingRun(sem: Semantics, m: Mesh, duals: bool, mem: Store)
    requires ValidMesh(m)
    ensures RunAll(sem, CpuRun(m, 0, duals), mem) == mem && CpuRounds(sem, m, 0, duals, mem) == mem
    ensures SameButCopies(mem, mem)
  {
  }

  lemma OneMoreRound(sem: Semantics, m: Mesh, duals: bool, a: Store, b: Store, dirty: bool)
    requires ValidMesh(m) && CopiesHold(m, a, dirty) && Allocated(a) && SameButCopies(a, b)
    ensures var ds := CpuRound(m, duals);
            SameButCopies(RunAll(sem, ds, a), RunAll(sem, ds, Eager(b))) &&
            CopiesHold(m, RunAll(sem, ds, a), dirty || duals) && Allocated(RunAll(sem, ds, a))
  {
    assert SameButCopies(a, Eager(b));
    hide CpuRound;
    RoundKeeps(sem, m, duals, a, dirty);
    RoundAvoids(m, duals);
    RunAllSame(sem, CpuRound(m, duals), a, Eager(b));
  }

  function Lazy(m: Mesh, mem: Store, dirty: bool): Store {
    var p := CopyBuf(mem, Positions, PositionsPre);
    if !dirty then p
    else
      var t := if m.nTri > 0 then CopyBuf(CopyBuf(p, TriL0, TriL0Pre), TriL1, TriL1Pre) else p;
      if m.nBend > 0 then CopyBuf(t, BdLambda, BdLambdaPre) else t
  }

  lemma SnapshotRuns(sem: Semantics, m: Mesh, mem: Store, dirty: bool)
    ensures RunCommands(sem, Snapshot(m, dirty), mem) == Lazy(m, mem, dirty)
  {
    var p := CopyBuf(mem, Positions, PositionsPre);
    var c0, c1 := Copy(TriL0, TriL0Pre), Copy(TriL1, TriL1Pre);
    var a, b := When(m.nTri, [c0, c1]), When(m.nBend, [Copy(BdLambda, BdLambdaPre)]);
    var first := [Copy(Positions, PositionsPre)];
    RunOne(sem, Copy(Positions, PositionsPre), mem);
    RunCommandsAppend(sem, first, if dirty then a + b else [], mem);
    if dirty {
      var t := if m.nTri > 0 then CopyBuf(CopyBuf(p, TriL0, TriL0Pre), TriL1, TriL1Pre) else p;
      RunOne(sem, c0, p);
      RunOne(sem, c1, CopyBuf(p, TriL0, TriL0Pre));
      RunCommandsAppend(sem, [c0], [c1], p);
      assert [c0] + [c1] == [c0, c1];
      assert RunCommands(sem, a, p) == t;
      RunOne(sem, Copy(BdLambda, BdLambdaPre), t);
      RunCommandsAppend(sem, a, b, p);
    }
  }

  lemma RunOne(sem: Semantics, c: Command, m: Store)
    ensures RunCommands(sem, [c], m) == RunCommand(sem, c, m)
  {
    assert [c][1..] == [];
  }

  /** Where lazy and eager meet: the lazy copies, taken from a memory whose stale
      copies are only those of updated duals, are the eager ones. */
  lemma LazyIsEager(m: Mesh, mem: Store, dirty: bool, other: Store)
    requires CopiesHold(m, mem, dirty) && SameButCopies(mem, other) && Allocated(mem)
    ensures Lazy(m, mem, dirty) == Eager(other)
  {
    var x, y := Lazy(m, mem, dirty), Eager(other);
    forall b | b in DUALS + {Positions} ensures Get(mem, b) == Get(other, b) {
      assert b in mem.Keys + COPIES <==> b in other.Keys + COPIES;
    }
    forall b ensures b in x <==> b in y {
      assert b in mem.Keys + COPIES <==> b in other.Keys + COPIES;
    }
    forall b | b in x ensures x[b] == y[b] {
      if b !in COPIES { assert x[b] == mem[b] && y[b] == other[b]; }
    }
  }

  lemma FirstListRuns(sem: Semantics, m: Mesh, iters: nat, duals: bool, mem: Store)
    requires ValidMesh(m) && iters >= 1
    ensures RunCommands(sem, FirstList(m, iters, duals), mem) == RunAll(sem, CpuRun(m, iters - 1, duals), mem)
  {
    assert CpuRun(m, 0, duals) == [];
    if iters > 1 {
      RepeatNoCopies(m, duals, iters - 1);
      FirstListIsCpu(m, duals, iters - 1);
      NoCopiesRun(sem, FirstList(m, iters, duals), mem);
    }
  }

  /** The recorded run leaves the memory AvbdCpu::run leaves, copies included. */
  lemma RunIsEager(sem: Semantics, m: Mesh, iters: nat, duals: bool, mem: Store, dirty: bool)
    requires ValidMesh(m) && iters >= 1 && CopiesHold(m, mem, dirty) && Allocated(mem)
    ensures var r := RunCommands(sem, Run(m, iters, duals, dirty), mem);
            r == CpuRounds(sem, m, iters, duals, mem) && CopiesHold(m, r, duals) && Allocated(r)
  {
    var stale := dirty || (duals && iters > 1);
    var m1 := RunAll(sem, CpuRun(m, iters - 1, duals), mem);
    var other := CpuRounds(sem, m, iters - 1, duals, mem);
    var m2 := Eager(other);
    FirstListRuns(sem, m, iters, duals, mem);
    RoundsSame(sem, m, iters - 1, duals, mem, dirty);
    SnapshotRuns(sem, m, m1, stale);
    LazyIsEager(m, m1, stale, other);
    EagerHolds(m, other);
    RoundRuns(sem, m, duals, m2);
    RoundKeeps(sem, m, duals, m2, false);
    hide CpuRun, Snapshot, FirstList, Round, CpuRound, CopiesHold, Lazy, Eager, SameButCopies;
    JoinCommands(sem, FirstList(m, iters, duals), Snapshot(m, stale), Round(m, duals), mem, m1, m2);
  }

  lemma EagerHolds(m: Mesh, mem: Store)
    ensures CopiesHold(m, Eager(mem), false) && Allocated(Eager(mem))
  {
  }

  lemma RoundRuns(sem: Semantics, m: Mesh, duals: bool, mem: Store)
    requires ValidMesh(m)
    ensures RunCommands(sem, Round(m, duals), mem) == RunAll(sem, CpuRound(m, duals), mem)
  {
    RepeatNoCopies(m, duals, 0);
    RoundIsCpu(m, duals);
    NoCopiesRun(sem, Round(m, duals), mem);
  }

  lemma JoinCommands(sem: Semantics, a: seq<Command>, b: seq<Command>, c: seq<Command>, m: Store, m1: Store, m2: Store)
    requires RunCommands(sem, a, m) == m1 && RunCommands(sem, b, m1) == m2
    ensures RunCommands(sem, a + b + [ListBegin] + c, m) == RunCommands(sem, c, m2)
  {
    RunCommandsAppend(sem, a, b, m);
    RunCommandsAppend(sem, a + b, [ListBegin], m);
    RunCommandsAppend(sem, a + b + [ListBegin], c, m);
    RunOne(sem, ListBegin, m2);
  }

  // --- every operation, every sequence ------------------------------------------------------

  lemma AttachKeeps(sem: Semantics, m: Mesh, mem: Store, dirty: bool)
    requires CopiesHold(m, mem, dirty) && Allocated(mem)
    ensures CopiesHold(m, RunDispatch(sem, AttachDualD(m), mem), dirty) && Allocated(RunDispatch(sem, AttachDualD(m), mem))
  {
  }

  lemma MembraneKeeps(sem: Semantics, m: Mesh, mem: Store, dirty: bool)
    requires CopiesHold(m, mem, dirty) && Allocated(mem) && m.nTri > 0
    ensures CopiesHold(m, RunDispatch(sem, MembraneDualD(m), mem), true) && Allocated(RunDispatch(sem, MembraneDualD(m), mem))
  {
  }

  lemma BendingKeeps(sem: Semantics, m: Mesh, mem: Store, dirty: bool)
    requires CopiesHold(m, mem, dirty) && Allocated(mem) && m.nBend > 0
    ensures CopiesHold(m, RunDispatch(sem, BendingDualD(m), mem), true) && Allocated(RunDispatch(sem, BendingDualD(m), mem))
  {
  }

  lemma DualStepKeeps(sem: Semantics, m: Mesh, d: Dispatch, mem: Store, dirty: bool)
    requires CopiesHold(m, mem, dirty) && Allocated(mem)
    requires d == AttachDualD(m) || (d == MembraneDualD(m) && m.nTri > 0) || (d == BendingDualD(m) && m.nBend > 0)
    ensures CopiesHold(m, RunDispatch(sem, d, mem), dirty || d != AttachDualD(m)) && Allocated(RunDispatch(sem, d, mem))
    ensures RunAll(sem, [d], mem) == RunDispatch(sem, d, mem)
  {
    DualThreads(m);
    RunSingle(sem, d, mem);
    hide CopiesHold, Allocated, RunDispatch, RunAll, AttachDualD, MembraneDualD, BendingDualD, CpuAttachDual, CpuMembraneDual, CpuBendingDual;
    if d == AttachDualD(m) {
      AttachKeeps(sem, m, mem, dirty);
    } else if d == MembraneDualD(m) && m.nTri > 0 {
      MembraneKeeps(sem, m, mem, dirty);
    } else {
      BendingKeeps(sem, m, mem, dirty);
    }
  }

  lemma GetSame(m: Store, m': Store, b: Buf)
    requires SameButPre(m, m') && b != PositionsPre
    ensures Get(m, b) == Get(m', b) && (b in m <==> b in m')
  {
  }

  /** The eager copies overwrite the pre-step positions. */
  lemma EagerForgetsPre(m: Store, m': Store)
    requires SameButPre(m, m')
    ensures Eager(m) == Eager(m')
  {
    FirstCopySame(m, m');
    hide CopyBuf, SameButPre;
  }

  lemma FirstCopySame(m: Store, m': Store)
    requires SameButPre(m, m')
    ensures CopyBuf(m, Positions, PositionsPre) == CopyBuf(m', Positions, PositionsPre)
  {
    GetSame(m, m', Positions);
  }

  lemma {:induction false} RoundsForgetPre(sem: Semantics, m: Mesh, n: nat, duals: bool, mem: Store, mem': Store)
    requires ValidMesh(m) && n >= 1 && SameButPre(mem, mem')
    ensures CpuRounds(sem, m, n, duals, mem) == CpuRounds(sem, m, n, duals, mem')
  {
    hide Eager;
    if n == 1 { EagerForgetsPre(mem, mem'); } else { RoundsForgetPre(sem, m, n - 1, duals, mem, mem'); }
  }

  lemma DispatchForgetsPre(sem: Semantics, d: Dispatch, m: Store, m': Store)
    requires SameButPre(m, m') && PositionsPre !in d.loads + d.stores
    ensures SameButPre(RunDispatch(sem, d, m), RunDispatch(sem, d, m'))
  {
    forall b | b in d.loads + d.stores ensures Get(m, b) == Get(m', b) { GetSame(m, m', b); }
    assert Seen(m, d) == Seen(m', d);
  }

  /** Every operation keeps the two backends' memories equal, but for the pre-step
      positions before the first step. */
  lemma StepKeepsRelated(sem: Semantics, zero: Zeros, op: Op, r: Rd, c: Cpu)
    requires Related(r, c) && ValidOp(op, r.mesh)
    ensures Related(RdStep(sem, zero, op, r), CpuStep(sem, zero, op, c))
  {
    if op.Step? || op.RunIters? {
      RunKeepsRelated(sem, zero, op, r, c);
    } else if op.Upload? || op.UploadTriangles? || op.UploadBendings? {
      UploadKeepsRelated(sem, zero, op, r, c);
    } else {
      DualKeepsRelated(sem, zero, op, r, c);
    }
  }

  lemma UploadKeepsRelated(sem: Semantics, zero: Zeros, op: Op, r: Rd, c: Cpu)
    requires Related(r, c) && ValidOp(op, r.mesh) && (op.Upload? || op.UploadTriangles? || op.UploadBendings?)
    ensures Related(RdStep(sem, zero, op, r), CpuStep(sem, zero, op, c))
  {
    hide SameButPre, CopiesHold, Allocated, ValidMesh, ZeroTri, ZeroBend, LeavesCopies;
    PlusSame(r.mem, c.mem, op.writes);
    UploadKeepsCopies(op.writes, r.mem, r.mesh, r.dirty);
    var m, m' := r.mem + op.writes, c.mem + op.writes;
    if op.UploadTriangles? {
      ZerosSame(m, m', zero(op.n));
      ZeroTriHolds(m, r.mesh, op.n, r.dirty, zero(op.n));
    } else if op.UploadBendings? {
      ZerosSame(m, m', zero(op.n));
      ZeroBendHolds(m, r.mesh, op.n, r.dirty, zero(op.n));
    } else {
      SameCounts(m, r.mesh, op.mesh, r.dirty);
    }
  }

  lemma UploadKeepsCopies(w: Store, mem: Store, m: Mesh, dirty: bool)
    requires LeavesCopies(w) && CopiesHold(m, mem, dirty) && Allocated(mem)
    ensures CopiesHold(m, mem + w, dirty) && Allocated(mem + w)
  {
  }

  lemma SameCounts(mem: Store, m: Mesh, m': Mesh, dirty: bool)
    requires CopiesHold(m, mem, dirty) && m'.nTri == m.nTri && m'.nBend == m.nBend
    ensures CopiesHold(m', mem, dirty)
  {
  }

  lemma ZeroTriHolds(mem: Store, m: Mesh, n: nat, dirty: bool, z: int)
    requires CopiesHold(m, mem, dirty) && Allocated(mem) && ValidMesh(m)
    ensures CopiesHold(m.(nTri := n), ZeroTri(mem, z), dirty) && Allocated(ZeroTri(mem, z)) && ValidMesh(m.(nTri := n))
  {
  }

  lemma ZeroBendHolds(mem: Store, m: Mesh, n: nat, dirty: bool, z: int)
    requires CopiesHold(m, mem, dirty) && Allocated(mem) && ValidMesh(m)
    ensures CopiesHold(m.(nBend := n), ZeroBend(mem, z), dirty) && Allocated(ZeroBend(mem, z)) && ValidMesh(m.(nBend := n))
  {
  }

  lemma PlusSame(m: Store, m': Store, w: Store)
    requires SameButPre(m, m')
    ensures SameButPre(m + w, m' + w)
  {
    var p, p' := m + w, m' + w;
    forall b | b != PositionsPre ensures (b in p <==> b in p') && (b in p ==> p[b] == p'[b]) {
      GetSame(m, m', b);
    }
  }

  lemma PutSame(m: Store, m': Store, b: Buf, z: int)
    requires SameButPre(m, m')
    ensures SameButPre(m[b := z], m'[b := z])
  {
    var p, p' := m[b := z], m'[b := z];
    forall x | x != PositionsPre ensures (x in p <==> x in p') && (x in p ==> p[x] == p'[x]) {
      GetSame(m, m', x);
    }
  }

  lemma ZerosSame(m: Store, m': Store, z: int)
    requires SameButPre(m, m')
    ensures SameButPre(ZeroTri(m, z), ZeroTri(m', z)) && SameButPre(ZeroBend(m, z), ZeroBend(m', z))
  {
    hide SameButPre;
    PutSame(m, m', TriL0, z);
    PutSame(m[TriL0 := z], m'[TriL0 := z], TriL1, z);
    PutSame(m[TriL0 := z][TriL1 := z], m'[TriL0 := z][TriL1 := z], TriL0Pre, z);
    PutSame(m[TriL0 := z][TriL1 := z][TriL0Pre := z], m'[TriL0 := z][TriL1 := z][TriL0Pre := z], TriL1Pre, z);
    PutSame(m, m', BdLambda, z);
    PutSame(m[BdLambda := z], m'[BdLambda := z], BdLambdaPre, z);
  }

  lemma RunKeepsRelated(sem: Semantics, zero: Zeros, op: Op, r: Rd, c: Cpu)
    requires Related(r, c) && (op.Step? || op.RunIters?)
    ensures Related(RdStep(sem, zero, op, r), CpuStep(sem, zero, op, c))
  {
    hide SameButPre, CopiesHold, Allocated, ValidMesh, CpuRounds, RunCommands, Run;
    var iters, duals := if op.Step? then 1 else op.iters, op.RunIters? && op.duals;
    NoRounds(sem, r.mesh, duals, c.mem);
    if iters >= 1 {
      RunIsEager(sem, r.mesh, iters, duals, r.mem, r.dirty);
      RoundsForgetPre(sem, r.mesh, iters, duals, r.mem, c.mem);
      SameAsItself(CpuRounds(sem, r.mesh, iters, duals, r.mem));
    }
  }

  lemma NoRounds(sem: Semantics, m: Mesh, duals: bool, mem: Store)
    requires ValidMesh(m)
    ensures CpuRounds(sem, m, 0, duals, mem) == mem
  {
  }

  lemma SameAsItself(m: Store)
    ensures SameButPre(m, m)
  {
  }

  lemma DualKeepsRelated(sem: Semantics, zero: Zeros, op: Op, r: Rd, c: Cpu)
    requires Related(r, c) && (op.StepDualAttachments? || op.StepDualMembrane? || op.StepDualBending?)
    ensures Related(RdStep(sem, zero, op, r), CpuStep(sem, zero, op, c))
  {
    hide RunDispatch, CopiesHold, RunAll, SameButPre, CpuAttachDual, CpuMembraneDual, CpuBendingDual, AttachDualD, MembraneDualD, BendingDualD, Allocated;
    var m := r.mesh;
    DualThreads(m);
    if op.StepDualAttachments? {
      if m.nAttach > 0 { DualUpdateKeeps(sem, m, AttachDualD(m), r.mem, c.mem, r.dirty); } else { RunNone(sem, c.mem); }
    } else if op.StepDualMembrane? {
      if m.nTri > 0 { DualUpdateKeeps(sem, m, MembraneDualD(m), r.mem, c.mem, r.dirty); } else { RunNone(sem, c.mem); }
    } else {
      if m.nBend > 0 { DualUpdateKeeps(sem, m, BendingDualD(m), r.mem, c.mem, r.dirty); } else { RunNone(sem, c.mem); }
    }
  }

  lemma DualThreads(m: Mesh)
    ensures AttachDualD(m) != MembraneDualD(m) && AttachDualD(m) != BendingDualD(m)
    ensures CpuAttachDual(m) == if m.nAttach > 0 then [AttachDualD(m)] else []
    ensures CpuMembraneDual(m) == if m.nTri > 0 then [MembraneDualD(m)] else []
    ensures CpuBendingDual(m) == if m.nBend > 0 then [BendingDualD(m)] else []
  {
  }

  lemma RunNone(sem: Semantics, m: Store)
    ensures RunAll(sem, [], m) == m
  {
  }

  lemma DualUpdateKeeps(sem: Semantics, m: Mesh, d: Dispatch, mem: Store, mem': Store, dirty: bool)
    requires CopiesHold(m, mem, dirty) && Allocated(mem) && SameButPre(mem, mem')
    requires d == AttachDualD(m) || (d == MembraneDualD(m) && m.nTri > 0) || (d == BendingDualD(m) && m.nBend > 0)
    ensures CopiesHold(m, RunDispatch(sem, d, mem), dirty || d != AttachDualD(m)) && Allocated(RunDispatch(sem, d, mem))
    ensures RunAll(sem, [d], mem') == RunDispatch(sem, d, mem') && SameButPre(RunDispatch(sem, d, mem), RunDispatch(sem, d, mem'))
  {
    DualAvoidsPre(m, d);
    hide *;
    DualStepKeeps(sem, m, d, mem, dirty);
    DispatchForgetsPre(sem, d, mem, mem');
    RunSingle(sem, d, mem');
  }

  lemma DualAvoidsPre(m: Mesh, d: Dispatch)
    requires d == AttachDualD(m) || d == MembraneDualD(m) || d == BendingDualD(m)
    ensures PositionsPre !in d.loads + d.stores
  {
  }

  lemma RunSingle(sem: Semantics, d: Dispatch, m: Store)
    ensures RunAll(sem, [d], m) == RunDispatch(sem, d, m)
  {
    assert [d][1..] == [];
  }

  ghost predicate ValidOps(sem: Semantics, zero: Zeros, ops: seq<Op>, c: Cpu)
    requires ValidMesh(c.mesh)
  {
    ops == [] || (ValidOp(ops[0], c.mesh) && ValidMesh(CpuStep(sem, zero, ops[0], c).mesh) &&
                  ValidOps(sem, zero, ops[1..], CpuStep(sem, zero, ops[0], c)))
  }

  function CpuSteps(sem: Semantics, zero: Zeros, ops: seq<Op>, c: Cpu): Cpu
    requires ValidMesh(c.mesh) && ValidOps(sem, zero, ops, c)
  {
    if ops == [] then c else CpuSteps(sem, zero, ops[1..], CpuStep(sem, zero, ops[0], c))
  }

  function RdSteps(sem: Semantics, zero: Zeros, ops: seq<Op>, r: Rd, ghost c: Cpu): Rd
    requires Related(r, c) && ValidOps(sem, zero, ops, c)
  {
    if ops == [] then r
    else
      StepKeepsRelated(sem, zero, ops[0], r, c);
      RdSteps(sem, zero, ops[1..], RdStep(sem, zero, ops[0], r), CpuStep(sem, zero, ops[0], c))
  }

  /** Lazy snapshots are eager ones: over every sequence of operations the two
      backends hold the same buffers, the pre-step copies included; only the pre-step
      positions, which nothing but a step sets, may differ until a step is made. */
  lemma {:induction false} LazyEqualsEager(sem: Semantics, zero: Zeros, ops: seq<Op>, r: Rd, c: Cpu)
    requires Related(r, c) && ValidOps(sem, zero, ops, c)
    ensures var r', c' := RdSteps(sem, zero, ops, r, c), CpuSteps(sem, zero, ops, c);
            && Related(r', c') && SameButPre(r'.mem, c'.mem)
            && (c.stepped || (exists i :: 0 <= i < |ops| && Steps(ops[i])) ==> r'.mem == c'.mem)
    decreases |ops|
  {
    hide *;
    if ops == [] {
      NoOps(sem, zero, ops, r, c);
    } else {
      FirstOp(sem, zero, ops, r, c);
      var c1 := CpuStep(sem, zero, ops[0], c);
      LazyEqualsEager(sem, zero, ops[1..], RdStep(sem, zero, ops[0], r), c1);
      if i :| 0 <= i < |ops| && Steps(ops[i]) {
        assert c1.stepped || Steps(ops[1..][i - 1]);
      }
    }
  }

  lemma NoOps(sem: Semantics, zero: Zeros, ops: seq<Op>, r: Rd, c: Cpu)
    requires Related(r, c) && ValidOps(sem, zero, ops, c) && ops == []
    ensures var r', c' := RdSteps(sem, zero, ops, r, c), CpuSteps(sem, zero, ops, c);
            Related(r', c') && SameButPre(r'.mem, c'.mem) && (c.stepped ==> r'.mem == c'.mem)
  {
    RelatedMeans(r, c);
    hide SameButPre, CopiesHold, Allocated, ValidMesh;
  }

  lemma FirstOp(sem: Semantics, zero: Zeros, ops: seq<Op>, r: Rd, c: Cpu)
    requires Related(r, c) && ValidOps(sem, zero, ops, c) && ops != []
    ensures ValidMesh(r.mesh) && ValidMesh(c.mesh) && ValidOp(ops[0], r.mesh) && ValidOp(ops[0], c.mesh)
    ensures Related(RdStep(sem, zero, ops[0], r), CpuStep(sem, zero, ops[0], c))
    ensures ValidOps(sem, zero, ops[1..], CpuStep(sem, zero, ops[0], c))
    ensures RdSteps(sem, zero, ops, r, c) == RdSteps(sem, zero, ops[1..], RdStep(sem, zero, ops[0], r), CpuStep(sem, zero, ops[0], c))
    ensures CpuSteps(sem, zero, ops, c) == CpuSteps(sem, zero, ops[1..], CpuStep(sem, zero, ops[0], c))
    ensures c.stepped || Steps(ops[0]) ==> CpuStep(sem, zero, ops[0], c).stepped
  {
    RelatedMeans(r, c);
    SteppedOnce(sem, zero, ops[0], c);
    StepKeepsRelated(sem, zero, ops[0], r, c);
    hide SameButPre, CopiesHold, Allocated, RdStep, CpuStep;
  }

  lemma RelatedMeans(r: Rd, c: Cpu)
    requires Related(r, c)
    ensures SameButPre(r.mem, c.mem) && (c.stepped ==> r.mem == c.mem) && r.mesh == c.mesh && ValidMesh(r.mesh)
  {
  }

  lemma SteppedOnce(sem: Semantics, zero: Zeros, op: Op, c: Cpu)
    requires ValidMesh(c.mesh) && ValidOp(op, c.mesh)
    ensures c.stepped || Steps(op) ==> CpuStep(sem, zero, op, c).stepped
  {
  }

  /** The operations that iterate. */
  predicate Steps(op: Op) {
    op.Step? || (op.RunIters? && op.iters >= 1)
  }

  /** Two backends after setup: the device's pre-step positions hold z, the CPU has none. */
  lemma FreshIsRelated(m: Mesh, z: int)
    requires ValidMesh(m)
    ensures var cpu: Store := ZeroBend(ZeroTri(map[], z), z);
            Related(Rd(m, cpu[PositionsPre := z], false, false), Cpu(m, cpu, false))
  {
    var cpu: Store := ZeroBend(ZeroTri(map[], z), z);
    FreshHolds(m, z);
    PutPre(cpu, z);
    hide SameButPre, CopiesHold, Allocated, ZeroTri, ZeroBend;
  }

  lemma PutPre(m: Store, z: int)
    ensures SameButPre(m[PositionsPre := z], m)
  {
  }

  lemma FreshHolds(m: Mesh, z: int)
    ensures var mem := ZeroBend(ZeroTri(map[], z), z)[PositionsPre := z]; CopiesHold(m, mem, false) && Allocated(mem)
  {
  }
}
