/** vec_rd and vec_cpu: a phase of vector ops. */
module VecPhases {

  // Run at once on the CPU, or recorded through cached dispatch sites on the GPU.

  // --- ops ------------------------------------------------------------------------------------

  /** A float as its 32 bits; comparisons see values, copies see bits. */
  type Bits = b: nat | b < 0x1_0000_0000

  predicate IsNaN(b: Bits) { b % 0x8000_0000 > 0x7f80_0000 }
  predicate IsZero(b: Bits) { b % 0x8000_0000 == 0 }

  /** The IEEE comparison: NaN equals nothing, the two zeros are equal. */
  predicate FloatEq(a: Bits, b: Bits) {
    !IsNaN(a) && !IsNaN(b) && (a == b || (IsZero(a) && IsZero(b)))
  }

  datatype Kind = BoxProject | PgInf | StepMax | MultiDot | Compact | RingStore | ApplyM | Cauchy | Subspace | Saxpby

  /** A buffer by its number. */
  datatype Op = Op(kind: Kind, a: nat, b: nat, c: nat, u0: nat, u1: nat, u3: nat, fa: Bits, fb: Bits, dyn: bool)

  const X: nat := 0
  const G: nat := 1
  const LB: nat := 2
  const UB: nat := 3
  const D: nat := 8
  const XCP: nat := 10
  const SV: nat := 11
  const YV: nat := 12
  const SM: nat := 13
  const YM: nat := 14
  const ST: nat := 15
  const BF: nat := 16
  const DOTS: nat := 17
  const VECC: nat := 18
  const WK: nat := 19
  const ISET: nat := 20
  const SC: nat := 21
  const VIN: nat := 22
  const VOUT: nat := 23
  const NUM_BUFS: nat := 24

  /** One op as the device sees it. */
  datatype Dispatch = Dispatch(kernel: Kind, binds: seq<nat>, params: seq<nat>, groups: nat)

  function Describe(o: Op, n: nat, mc: nat): Dispatch {
    var perElem := (n + 255) / 256;
    match o.kind
    case BoxProject => Dispatch(BoxProject, [o.a, LB, UB], [n], perElem)
    case PgInf => Dispatch(PgInf, [o.a, o.b, LB, UB, SC], [n, o.u0], 1)
    case StepMax => Dispatch(StepMax, [o.a, o.b, LB, UB, SC], [n, o.u0], 1)
    case MultiDot => Dispatch(MultiDot, [o.a, o.b, o.c], [n, o.u0, 0, if o.u1 != 0 then o.u1 else n, 0, o.u3], o.u0)
    case Compact => Dispatch(Compact, [DOTS, ST, BF], [mc, o.u0], 1)
    case RingStore => Dispatch(RingStore, [ST, SV, YV, SM, YM], [n], perElem)
    case ApplyM => Dispatch(ApplyM, [ST, BF, VIN, VOUT], [mc, o.u0, o.u1], 1)
    case Cauchy => Dispatch(Cauchy, [X, G, LB, UB, SM, YM, ST, BF, XCP, VECC, WK, ISET], [n, mc], 1)
    case Subspace => Dispatch(Subspace, [X, G, LB, UB, SM, YM, ST, BF, XCP, VECC, ISET, D, WK], [n, mc, o.u0], 1)
    case Saxpby => Dispatch(Saxpby, [o.a, o.b, o.c], [n, o.fa, o.fb], perElem)
  }

  /** Words fill a params block of whole 16-byte rows, the rest of the last row being zero. */
  predicate Fills(words: seq<nat>, p: seq<nat>) {
    && |p| % 4 == 0 && |words| <= |p| < |words| + 4 && p[..|words|] == words
    && forall i :: |words| <= i < |p| ==> p[i] == 0
  }

  /** A params block is whole 16-byte rows. */
  function Packed(words: seq<nat>): (p: seq<nat>)
    ensures Fills(words, p)
    decreases (4 - |words| % 4) % 4
  {
    if |words| % 4 == 0 then words
    else
      var p := Packed(words + [0]);
      assert p[..|words|] == p[..|words| + 1][..|words|];
      assert p[|words|] == p[..|words| + 1][|words|];
      p
  }

  lemma FillsOneWay(words: seq<nat>, p: seq<nat>)
    requires Fills(words, p)
    ensures p == Packed(words)
  {
    var q := Packed(words);
    forall i | 0 <= i < |p| ensures p[i] == q[i] {
      if i < |words| { assert p[i] == p[..|words|][i] && q[i] == q[..|words|][i]; }
    }
  }

  predicate ValidOp(o: Op) {
    o.a < NUM_BUFS && o.b < NUM_BUFS && o.c < NUM_BUFS
  }

  lemma BindsInRange(o: Op, n: nat, mc: nat)
    requires ValidOp(o)
    ensures forall i :: 0 <= i < |Describe(o, n, mc).binds| ==> Describe(o, n, mc).binds[i] < NUM_BUFS
  {
  }

  // --- VecCpu's own switch ------------------------------------------------------------------------

  /** The names a kernel's buffers go by. */
  datatype Arg =
    | ArgX | ArgY | ArgG | ArgD | ArgLb | ArgUb | ArgDst | ArgA | ArgVv | ArgDots | ArgSt | ArgBf | ArgS
    | ArgHistS | ArgHistY | ArgVin | ArgVout | ArgXcp | ArgVecc | ArgWk | ArgIset | ArgDrt

  datatype Setting = Set(arg: Arg, buf: nat)

  /** One block of VecCpu::run: the buffer set under each name, the params, the threads. */
  datatype Call = Call(kernel: Kind, args: seq<Setting>, params: seq<nat>, threads: nat)

  function CpuCall(o: Op, n: nat, mc: nat): Call {
    match o.kind
    case BoxProject => Call(BoxProject, [Set(ArgX, o.a), Set(ArgLb, LB), Set(ArgUb, UB)], [n], n)
    case PgInf => Call(PgInf, [Set(ArgX, o.a), Set(ArgG, o.b), Set(ArgLb, LB), Set(ArgUb, UB), Set(ArgDst, SC)], [n, o.u0], 1)
    case StepMax => Call(StepMax, [Set(ArgX, o.a), Set(ArgD, o.b), Set(ArgLb, LB), Set(ArgUb, UB), Set(ArgDst, SC)], [n, o.u0], 1)
    case MultiDot =>
      var stride := if o.u1 != 0 then o.u1 else n;
      Call(MultiDot, [Set(ArgA, o.a), Set(ArgVv, o.b), Set(ArgDst, o.c)], [n, o.u0, 0, stride, 0, o.u3], o.u0)
    case Compact => Call(Compact, [Set(ArgDots, DOTS), Set(ArgSt, ST), Set(ArgBf, BF)], [mc, o.u0], 1)
    case RingStore =>
      Call(RingStore, [Set(ArgSt, ST), Set(ArgS, SV), Set(ArgY, YV), Set(ArgHistS, SM), Set(ArgHistY, YM)], [n], n)
    case ApplyM => Call(ApplyM, [Set(ArgSt, ST), Set(ArgBf, BF), Set(ArgVin, VIN), Set(ArgVout, VOUT)], [mc, o.u0, o.u1], 1)
    case Cauchy =>
      Call(Cauchy, [Set(ArgX, X), Set(ArgG, G), Set(ArgLb, LB), Set(ArgUb, UB), Set(ArgHistS, SM), Set(ArgHistY, YM), Set(ArgSt, ST),
                    Set(ArgBf, BF), Set(ArgXcp, XCP), Set(ArgVecc, VECC), Set(ArgWk, WK), Set(ArgIset, ISET)], [n, mc], 1)
    case Subspace =>
      Call(Subspace, [Set(ArgX, X), Set(ArgG, G), Set(ArgLb, LB), Set(ArgUb, UB), Set(ArgHistS, SM), Set(ArgHistY, YM), Set(ArgSt, ST),
                      Set(ArgBf, BF), Set(ArgXcp, XCP), Set(ArgVecc, VECC), Set(ArgIset, ISET), Set(ArgDrt, D), Set(ArgWk, WK)],
           [n, mc, o.u0], 1)
    case Saxpby => Call(Saxpby, [Set(ArgX, o.a), Set(ArgY, o.b), Set(ArgDst, o.c)], [n, o.fa, o.fb], n)
  }

  /** The names VecRd gives a kernel's bindings, in the order it lists them. */
  function Names(k: Kind): seq<Arg> {
    match k
    case BoxProject => [ArgX, ArgLb, ArgUb]
    case PgInf => [ArgX, ArgG, ArgLb, ArgUb, ArgDst]
    case StepMax => [ArgX, ArgD, ArgLb, ArgUb, ArgDst]
    case MultiDot => [ArgA, ArgVv, ArgDst]
    case Compact => [ArgDots, ArgSt, ArgBf]
    case RingStore => [ArgSt, ArgS, ArgY, ArgHistS, ArgHistY]
    case ApplyM => [ArgSt, ArgBf, ArgVin, ArgVout]
    case Cauchy => [ArgX, ArgG, ArgLb, ArgUb, ArgHistS, ArgHistY, ArgSt, ArgBf, ArgXcp, ArgVecc, ArgWk, ArgIset]
    case Subspace => [ArgX, ArgG, ArgLb, ArgUb, ArgHistS, ArgHistY, ArgSt, ArgBf, ArgXcp, ArgVecc, ArgIset, ArgDrt, ArgWk]
    case Saxpby => [ArgX, ArgY, ArgDst]
  }

  /** Workgroups of 256 cover the threads with less than one group to spare; the kernels
      that reduce take one workgroup for each thread of their serial form. */
  predicate Covers(k: Kind, groups: nat, threads: nat) {
    if k == BoxProject || k == RingStore || k == Saxpby then threads <= 256 * groups < threads + 256
    else groups == threads
  }

  /** The same buffer under every name. */
  predicate SameArgs(k: Kind, binds: seq<nat>, args: seq<Setting>) {
    && |binds| == |Names(k)| == |args|
    && forall i :: 0 <= i < |args| ==> args[i] == Set(Names(k)[i], binds[i])
  }

  lemma SolvesBindAlike(n: nat, mc: nat)
    ensures forall o: Op :: o.kind == Cauchy ==> SameArgs(Cauchy, Describe(o, n, mc).binds, CpuCall(o, n, mc).args)
    ensures forall o: Op :: o.kind == Subspace ==> SameArgs(Subspace, Describe(o, n, mc).binds, CpuCall(o, n, mc).args)
  {
  }

  /** VecRd's table is VecCpu's switch: the same kernel, the same buffer under every name,
      the same params, and enough workgroups for the threads. */
  lemma DescribeIsCpu(o: Op, n: nat, mc: nat)
    ensures var d, c := Describe(o, n, mc), CpuCall(o, n, mc);
            d.kernel == c.kernel && SameArgs(c.kernel, d.binds, c.args) && d.params == c.params &&
            Covers(c.kernel, d.groups, c.threads)
  {
    SolvesBindAlike(n, mc);
  }

  /** What identifies a dispatch site: its kernel and buffers, and its params too unless
      they change between phases. */
  datatype SiteKey = SiteKey(kernel: Kind, binds: seq<nat>, dyn: bool, words: seq<nat>)

  function KeyOf(o: Op, n: nat, mc: nat): SiteKey {
    var d := Describe(o, n, mc);
    SiteKey(d.kernel, d.binds, o.dyn, if o.dyn then [] else d.params)
  }

  function WordsOf(o: Op, n: nat, mc: nat): seq<nat> {
    Packed(Describe(o, n, mc).params)
  }

  // --- the device --------------------------------------------------------------------------------

  /** A uniform set: a kernel's buffers and its params block. */
  datatype USet = USet(kernel: Kind, bufs: seq<nat>, params: nat)

  /** The live params blocks and uniform sets; ids are never reused. */
  datatype Device = Device(blocks: map<nat, seq<nat>>, sets: map<nat, USet>, next: nat)

  ghost predicate Fresh(dev: Device) {
    (forall r :: r in dev.blocks ==> r < dev.next) && (forall r :: r in dev.sets ==> r < dev.next)
  }

  /** What a kernel is run on: buffers, params words, workgroups. */
  datatype Job = Job(kernel: Kind, bufs: seq<nat>, words: seq<nat>, groups: nat)

  datatype Cmd = Bind(uset: nat, groups: nat) | Barrier

  /** A dispatch command means what its set and params block hold when it is submitted. */
  function Seen(dev: Device, cmd: Cmd): (j: Job)
    requires cmd.Bind? && cmd.uset in dev.sets && dev.sets[cmd.uset].params in dev.blocks
  {
    var s := dev.sets[cmd.uset];
    Job(s.kernel, s.bufs, dev.blocks[s.params], cmd.groups)
  }

  function Rids(bufs: seq<nat>, binds: seq<nat>): (rs: seq<nat>)
    requires |bufs| == NUM_BUFS && forall i :: 0 <= i < |binds| ==> binds[i] < NUM_BUFS
    ensures |rs| == |binds| && forall i :: 0 <= i < |binds| ==> rs[i] == bufs[binds[i]]
  {
    if binds == [] then [] else Rids(bufs, binds[..|binds| - 1]) + [bufs[binds[|binds| - 1]]]
  }

  /** The job VecRd means an op to be. */
  function Wanted(bufs: seq<nat>, o: Op, n: nat, mc: nat): Job
    requires |bufs| == NUM_BUFS && ValidOp(o)
  {
    BindsInRange(o, n, mc);
    var d := Describe(o, n, mc);
    Job(d.kernel, Rids(bufs, d.binds), Packed(d.params), d.groups)
  }

  /** The job does what the call does: the kernel, every buffer under its name, the params
      in whole rows, and workgroups for the threads. */
  predicate Runs(bufs: seq<nat>, j: Job, c: Call)
    requires |bufs| == NUM_BUFS
  {
    && j.kernel == c.kernel && |j.bufs| == |c.args| == |Names(c.kernel)|
    && (forall i :: 0 <= i < |c.args| ==>
          c.args[i].arg == Names(c.kernel)[i] && c.args[i].buf < NUM_BUFS && j.bufs[i] == bufs[c.args[i].buf])
    && Fills(c.params, j.words) && Covers(c.kernel, j.groups, c.threads)
  }

  lemma WantedRuns(bufs: seq<nat>, o: Op, n: nat, mc: nat)
    requires |bufs| == NUM_BUFS && ValidOp(o)
    ensures Runs(bufs, Wanted(bufs, o, n, mc), CpuCall(o, n, mc))
  {
    hide Describe, CpuCall, Names, Fills, Covers, ValidOp;
    BindsInRange(o, n, mc);
    DescribeIsCpu(o, n, mc);
  }

  /** The params of a job that runs an op's call are the op's words. */
  lemma RunsWords(bufs: seq<nat>, j: Job, o: Op, n: nat, mc: nat)
    requires |bufs| == NUM_BUFS && Runs(bufs, j, CpuCall(o, n, mc))
    ensures j.words == WordsOf(o, n, mc)
  {
    hide Describe, CpuCall, Names, Packed, Covers;
    DescribeIsCpu(o, n, mc);
    FillsOneWay(CpuCall(o, n, mc).params, j.words);
  }

  // --- which phases are accepted -----------------------------------------------------------------

  /** The last op before the i-th at the same dynamic site. */
  function LastAt(ops: seq<Op>, key: SiteKey, i: nat, n: nat, mc: nat): (at: int)
    requires i <= |ops|
    ensures -1 <= at < i
    ensures at >= 0 ==> ops[at].dyn && KeyOf(ops[at], n, mc) == key
    ensures forall j :: at < j < i ==> !(ops[j].dyn && KeyOf(ops[j], n, mc) == key)
  {
    if i == 0 then -1
    else if ops[i - 1].dyn && KeyOf(ops[i - 1], n, mc) == key then i - 1
    else LastAt(ops, key, i - 1, n, mc)
  }

  /** The check run makes: the coefficients of two ops at one dynamic site compare equal
      as floats. */
  predicate PassesCheck(ops: seq<Op>, i: nat, n: nat, mc: nat)
    requires i < |ops|
  {
    var at := LastAt(ops, KeyOf(ops[i], n, mc), i, n, mc);
    ops[i].dyn && at >= 0 ==> FloatEq(ops[at].fa, ops[i].fa) && FloatEq(ops[at].fb, ops[i].fb)
  }

  predicate Accepted(ops: seq<Op>, k: nat, n: nat, mc: nat)
    requires k <= |ops|
  {
    forall i :: 0 <= i < k ==> PassesCheck(ops, i, n, mc)
  }

  /** Two ops at one dynamic site want the same params words. */
  predicate Agree(o: Op, o': Op, n: nat, mc: nat) {
    o.dyn && o'.dyn && KeyOf(o, n, mc) == KeyOf(o', n, mc) ==> WordsOf(o, n, mc) == WordsOf(o', n, mc)
  }

  /** What the one block of a dynamic site can serve. */
  predicate Unclashed(ops: seq<Op>, n: nat, mc: nat) {
    forall i, j :: 0 <= i < j < |ops| ==> Agree(ops[i], ops[j], n, mc)
  }

  /** What makes the check enough: only saxpby is dynamic, and no coefficient of a dynamic
      op is a negative zero. */
  predicate Careful(ops: seq<Op>) {
    forall i :: 0 <= i < |ops| && ops[i].dyn ==> ops[i].kind == Saxpby && ops[i].fa != 0x8000_0000 && ops[i].fb != 0x8000_0000
  }

  lemma ZerosAreOne(a: Bits, b: Bits)
    requires FloatEq(a, b) && a != 0x8000_0000 && b != 0x8000_0000
    ensures a == b
  {
  }

  lemma {:induction false} ChainedCheck(ops: seq<Op>, i: nat, j: nat, n: nat, mc: nat)
    requires i < j < |ops| && Accepted(ops, |ops|, n, mc) && Careful(ops)
    requires ops[i].dyn && ops[j].dyn && KeyOf(ops[i], n, mc) == KeyOf(ops[j], n, mc)
    ensures ops[i].fa == ops[j].fa && ops[i].fb == ops[j].fb
    decreases j
  {
    var at := LastAt(ops, KeyOf(ops[j], n, mc), j, n, mc);
    assert i <= at;
    assert PassesCheck(ops, j, n, mc);
    ZerosAreOne(ops[at].fa, ops[j].fa);
    ZerosAreOne(ops[at].fb, ops[j].fb);
    if i < at { ChainedCheck(ops, i, at, n, mc); }
  }

  /** A careful phase that passes the check has no clash. */
  lemma AcceptedIsUnclashed(ops: seq<Op>, n: nat, mc: nat)
    requires Accepted(ops, |ops|, n, mc) && Careful(ops)
    ensures Unclashed(ops, n, mc)
  {
    forall i, j | 0 <= i < j < |ops| ensures Agree(ops[i], ops[j], n, mc) {
      if ops[i].dyn && ops[j].dyn && KeyOf(ops[i], n, mc) == KeyOf(ops[j], n, mc) {
        ChainedCheck(ops, i, j, n, mc);
      }
    }
  }

  function Scale(fb: Bits): Op { Op(Saxpby, X, G, D, 0, 0, 0, 0x3f80_0000, fb, true) }

  /** The check alone is not: +0 and -0 compare equal, yet are different words. */
  lemma ZeroSignsClash(n: nat, mc: nat)
    ensures Accepted([Scale(0), Scale(0x8000_0000)], 2, n, mc) && !Unclashed([Scale(0), Scale(0x8000_0000)], n, mc)
  {
    var ops := [Scale(0), Scale(0x8000_0000)];
    assert LastAt(ops, KeyOf(ops[0], n, mc), 0, n, mc) == -1;
    var w0, w1 := WordsOf(ops[0], n, mc), WordsOf(ops[1], n, mc);
    assert w0[..3][2] == 0 && w1[..3][2] == 0x8000_0000;
    assert !Agree(ops[0], ops[1], n, mc);
  }
}
