/** lbfgsb: the reverse-communication driver over its device buffers.

    The caller alternates next() with evaluations; each call runs one phase of dispatches
    and leaves.  What a phase means is a predicate over the buffers: Poised once a
    direction is ready, Searching while a trial waits for its value, Evaluated when it has
    it, Restorable and Settled when the search is over.  Each ties the buffers to one run
    of the direct-style search of MoreThuente. */
module LbfgsbDriver {
  import opened StepSelection
  import opened MoreThuente

  /** The vector kernels as functions of what they read, over vectors V and the BFGS
      memory M, and the objective the caller evaluates. */
  datatype Kernels<!V, !M> = Kernels(
    project: V -> V,
    inBox: V -> bool,
    combine: (V, V, real, real) -> V,
    dot: (V, V) -> real,
    pgInf: (V, V) -> real,
    room: (V, V) -> real,
    products: (M, V, V) -> V,
    add: (M, V) -> M,
    reset: M -> M,
    store: (M, V, V) -> M,
    pivotsOk: M -> bool,
    cauchy: (M, V, V) -> V,
    subspace: (M, V, V, V, int) -> V,
    root: Root,
    invRoot: real -> real,
    f: V -> real,
    grad: V -> V)

  /** What the kernels are relied on for: projection lands in the box and fixes its
      points, a step of length 0 goes nowhere, and square roots
      are exact. */
  ghost predicate Lawful<V(!new), M(!new)>(k: Kernels<V, M>) {
    && (forall x :: k.inBox(k.project(x)))
    && (forall x :: k.inBox(x) ==> k.project(x) == x)
    && (forall x, d :: k.combine(d, x, 0.0, 1.0) == x)
    && IsRoot(k.root)
  }

  /** The device buffers: vectors, the BFGS memory, and the scalar slots. */
  datatype Bufs<!V, !M> = Bufs(x: V, g: V, xp: V, gp: V, xlo: V, glo: V, d: V, dcp: V, xcp: V, sv: V, yv: V, dots: V, mem: M,
                               dg: real, xx: real, nn: real, pg: real, smax: real, pivotsOk: bool)

  // --- the phases' dispatch lists, in order ----------------------------------------------

  function Diff<V, M>(k: Kernels<V, M>, a: V, b: V): V { k.combine(a, b, 1.0, -1.0) }

  /** appendTail */
  function Tail<V, M>(k: Kernels<V, M>, b: Bufs<V, M>): Bufs<V, M> {
    var b1 := b.(xp := b.x);
    var b2 := b1.(gp := b1.g);
    var b3 := b2.(dg := k.dot(b2.g, b2.d));
    b3.(smax := k.room(b3.x, b3.d))
  }

  /** appendPost */
  function Post<V, M>(k: Kernels<V, M>, b: Bufs<V, M>): Bufs<V, M> {
    var b1 := b.(pg := k.pgInf(b.x, b.g));
    var b2 := b1.(xx := k.dot(b1.x, b1.x));
    var b3 := b2.(sv := Diff(k, b2.x, b2.xp));
    var b4 := b3.(yv := Diff(k, b3.g, b3.gp));
    b4.(dots := k.products(b4.mem, b4.sv, b4.yv))
  }

  /** start(): x0 uploaded and forced into the box, the memory reset. */
  function Begun<V, M>(k: Kernels<V, M>, b: Bufs<V, M>, x0: V): Bufs<V, M> {
    var b1 := b.(x := x0);
    var b2 := b1.(x := k.project(b1.x));
    b2.(mem := k.reset(b2.mem))
  }

  function AtX0<V, M>(k: Kernels<V, M>, b: Bufs<V, M>): Bufs<V, M> {
    var b1 := b.(pg := k.pgInf(b.x, b.g));
    var b2 := b1.(xx := k.dot(b1.x, b1.x));
    var b3 := b2.(xcp := k.cauchy(b2.mem, b2.x, b2.g));
    var b4 := b3.(dcp := Diff(k, b3.xcp, b3.x));
    b4.(nn := k.dot(b4.dcp, b4.dcp))
  }

  /** The first direction: xcp - x, normalised unless it is zero. */
  function FirstDirected<V, M>(k: Kernels<V, M>, b: Bufs<V, M>): Bufs<V, M> {
    Tail(k, b.(d := k.combine(b.dcp, b.x, if b.nn > 0.0 then k.invRoot(b.nn) else 1.0, 0.0)))
  }

  /** direction() */
  function Directed<V, M>(k: Kernels<V, M>, b: Bufs<V, M>, reset: bool, maxSubmin: int): Bufs<V, M> {
    var b1 :=
      if reset then b.(mem := k.reset(b.mem))
      else
        var c1 := b.(mem := k.add(b.mem, b.dots));
        var c2 := c1.(pivotsOk := k.pivotsOk(c1.mem));
        var c3 := c2.(mem := k.store(c2.mem, c2.sv, c2.yv));
        c3.(x := k.project(c3.x));
    var b2 := b1.(xcp := k.cauchy(b1.mem, b1.x, b1.g));
    var b3 := b2.(d := k.subspace(b2.mem, b2.x, b2.g, b2.xcp, maxSubmin));
    var b4 := b3.(dcp := Diff(k, b3.xcp, b3.x));
    Tail(k, b4)
  }

  /** The pathological-direction reset. */
  function Pathological<V, M>(k: Kernels<V, M>, b: Bufs<V, M>): Bufs<V, M> {
    var b1 := b.(d := b.dcp);
    var b2 := b1.(mem := k.reset(b1.mem));
    var b3 := b2.(dg := k.dot(b2.g, b2.d));
    b3.(smax := k.room(b3.x, b3.d))
  }

  /** Where x_lo lives. */
  datatype LoAt = AtStart | AtCurrent | AtBuffer

  /** trial(): x_lo takes the current point if it is that, then x moves to the step. */
  function Moved<V, M>(k: Kernels<V, M>, b: Bufs<V, M>, lo: LoAt, step: real): Bufs<V, M> {
    var b1 := if lo == AtCurrent then var c := b.(xlo := b.x); c.(glo := c.g) else b;
    var b2 := b1.(x := k.combine(b1.d, b1.xp, step, 1.0));
    b2.(x := k.project(b2.x))
  }

  /** restoreLo(): x and its gradient back from where x_lo lives. */
  function Restored<V, M>(k: Kernels<V, M>, b: Bufs<V, M>, lo: LoAt): Bufs<V, M> {
    var b1 := b.(x := if lo == AtStart then b.xp else b.xlo);
    var b2 := b1.(g := if lo == AtStart then b1.gp else b1.glo);
    Post(k, b2)
  }

  // --- what the buffers mean -------------------------------------------------------------------

  /** The line search's point at a step. */
  function PointAt<V, M>(k: Kernels<V, M>, b: Bufs<V, M>, step: real): V {
    k.project(k.combine(b.d, b.xp, step, 1.0))
  }

  /** The search as MoreThuente sees it. */
  function EnvOf<V, M>(k: Kernels<V, M>, r: Rules, b: Bufs<V, M>): Env {
    EnvAlong(k, r, b.xp, b.d)
  }

  function EnvAlong<V, M>(k: Kernels<V, M>, r: Rules, xp: V, d: V): Env {
    Env(r, s => k.f(k.project(k.combine(d, xp, s, 1.0))),
        s => k.dot(k.grad(k.project(k.combine(d, xp, s, 1.0))), d))
  }

  /** x is in the box and g is its gradient. */
  ghost predicate Current<V, M>(k: Kernels<V, M>, b: Bufs<V, M>) {
    k.inBox(b.x) && b.g == k.grad(b.x)
  }

  /** The next update's quantities belong to x, g and the point the step left. */
  ghost predicate Coherent<V, M>(k: Kernels<V, M>, b: Bufs<V, M>) {
    && Current(k, b)
    && b.sv == Diff(k, b.x, b.xp) && b.yv == Diff(k, b.g, b.gp) && b.gp == k.grad(b.xp)
    && b.dots == k.products(b.mem, b.sv, b.yv)
    && b.pg == k.pgInf(b.x, b.g) && b.xx == k.dot(b.x, b.x)
  }

  /** A direction is ready at x. */
  ghost predicate Poised<V, M>(k: Kernels<V, M>, b: Bufs<V, M>) {
    && Current(k, b) && b.xp == b.x && b.gp == b.g
    && b.dg == k.dot(b.g, b.d) && b.smax == k.room(b.x, b.d)
  }

  // --- where a direction comes from ------------------------------------------------------------

  /** xcp is the generalised Cauchy point at x under a memory, dcp the way there. */
  predicate AtCauchy<V(==), M>(k: Kernels<V, M>, x: V, g: V, mem: M, xcp: V, dcp: V) {
    xcp == k.cauchy(mem, x, g) && dcp == k.combine(xcp, x, 1.0, -1.0)
  }

  /** The first direction: towards the Cauchy point, of length 1 unless it is zero. */
  predicate FirstAim<V(==), M>(k: Kernels<V, M>, x: V, g: V, mem: M, xcp: V, dcp: V, d: V) {
    && AtCauchy(k, x, g, mem, xcp, dcp)
    && d == k.combine(dcp, x, if k.dot(dcp, dcp) > 0.0 then k.invRoot(k.dot(dcp, dcp)) else 1.0, 0.0)
  }

  /** A later direction: the subspace minimisation from the Cauchy point. */
  predicate SubspaceAim<V(==), M>(k: Kernels<V, M>, maxSubmin: int, x: V, g: V, mem: M, xcp: V, dcp: V, d: V) {
    AtCauchy(k, x, g, mem, xcp, dcp) && d == k.subspace(mem, x, g, xcp, maxSubmin)
  }

  /** In place of a pathological direction: straight to the Cauchy point, the memory reset. */
  ghost predicate ResetAim<V, M(!new)>(k: Kernels<V, M>, x: V, g: V, mem: M, xcp: V, dcp: V, d: V) {
    d == dcp && exists was: M :: AtCauchy(k, x, g, was, xcp, dcp) && mem == k.reset(was)
  }

  ghost predicate Aimed<V, M(!new)>(k: Kernels<V, M>, maxSubmin: int, x: V, g: V, mem: M, xcp: V, dcp: V, d: V) {
    || FirstAim(k, x, g, mem, xcp, dcp, d)
    || SubspaceAim(k, maxSubmin, x, g, mem, xcp, dcp, d)
    || ResetAim(k, x, g, mem, xcp, dcp, d)
  }

  ghost predicate WasReset<V, M(!new)>(k: Kernels<V, M>, mem: M) {
    exists was: M :: mem == k.reset(was)
  }

  /** The memory has taken the step from x0 to x and the change of the gradient over it. */
  ghost predicate LearntFrom<V, M>(k: Kernels<V, M>, b: Bufs<V, M>, was: M, x0: V) {
    && b.sv == k.combine(b.x, x0, 1.0, -1.0) && b.yv == k.combine(b.g, k.grad(x0), 1.0, -1.0)
    && var added := k.add(was, k.products(was, b.sv, b.yv));
       b.pivotsOk == k.pivotsOk(added) && b.mem == k.store(added, b.sv, b.yv)
  }

  ghost predicate Learnt<V(!new), M(!new)>(k: Kernels<V, M>, b: Bufs<V, M>) {
    exists was: M, x0: V :: LearntFrom(k, b, was, x0)
  }

  /** The start point and the lower end's buffers, when it lives in them. */
  ghost predicate LoHeld<V, M>(k: Kernels<V, M>, b: Bufs<V, M>, lo: LoAt, iLo: real) {
    && k.inBox(b.xp) && b.gp == k.grad(b.xp)
    && (lo == AtStart ==> iLo == 0.0)
    && (lo == AtBuffer ==> b.xlo == PointAt(k, b, iLo) && b.glo == k.grad(b.xlo))
    && (lo == AtCurrent ==> b.x == PointAt(k, b, iLo) && b.g == k.grad(b.x))
  }

  // --- the line search over the buffers ------------------------------------------------------

  /** A point a search started from: its value, the value reported for it, and whether no
      pass of the search that found it made an error. */
  datatype Accepted = Accepted(value: real, fx: real, clean: bool)

  /** What a search is run with, and the points searches have started from. */
  datatype Setting<!V, !M> = Setting(k: Kernels<V, M>, r: Rules, trail: seq<Accepted>)

  /** The i-th point found: below what was reported for the one before it. */
  ghost predicate Below(p: Params, trail: seq<Accepted>, i: nat)
    requires 0 < i < |trail|
  {
    && (p.minStep >= 0.0 ==> trail[i].value <= trail[i - 1].fx)
    && (p.minStep > 0.0 ==> trail[i].value < trail[i - 1].fx)
  }

  ghost predicate Descending(p: Params, trail: seq<Accepted>) {
    && (forall i :: 0 <= i < |trail| && trail[i].clean ==> trail[i].fx == trail[i].value)
    && (forall i :: 0 < i < |trail| ==> Below(p, trail, i))
  }

  /** The trail ends at a point of this value, for which this was reported. */
  ghost predicate EndsAt(p: Params, trail: seq<Accepted>, value: real, fx: real) {
    && |trail| > 0 && Descending(p, trail)
    && trail[|trail| - 1].value == value && trail[|trail| - 1].fx == fx
  }

  /** Points found without an error are strictly lower than all before them. */
  lemma {:induction false} TrailDescends(p: Params, trail: seq<Accepted>, i: nat, j: nat)
    requires Descending(p, trail) && p.minStep > 0.0 && i < j < |trail|
    requires forall l :: 0 <= l < |trail| ==> trail[l].clean
    ensures trail[j].value < trail[i].value
    decreases j
  {
    assert Below(p, trail, j);
    if i < j - 1 { TrailDescends(p, trail, i, j - 1); }
  }

  function EnvIn<V, M>(c: Setting<V, M>, b: Bufs<V, M>): Env {
    EnvOf(c.k, c.r, b)
  }

  /** The line descends from the start point, where the trail ends, and has room ahead. */
  ghost predicate Descends<V(!new), M(!new)>(c: Setting<V, M>, b: Bufs<V, M>) {
    && c.r.line.dgInit == c.k.dot(b.gp, b.d) && Sane(c.r)
    && Aimed(c.k, c.r.p.maxSubmin, b.xp, b.gp, b.mem, b.xcp, b.dcp, b.d)
    && EndsAt(c.r.p, c.trail, c.k.f(b.xp), c.r.line.fxInit)
  }

  /** A trial point is in x: the search resumes there, and the buffers hold the start
      point and the bracket's lower end. */
  ghost predicate Searching<V(!new), M(!new)>(c: Setting<V, M>, b: Bufs<V, M>, ls: Ls, lo: LoAt, evals: nat) {
    && LoHeld(c.k, b, lo, ls.iLo) && lo != AtCurrent && Descends(c, b)
    && b.x == PointAt(c.k, b, ls.step)
    && -1 <= ls.iter && evals == ls.iter + 1 <= c.r.p.maxLinesearch
    && LoHolds(EnvIn(c, b), ls) && Ahead(c.r, ls)
    && Resume(EnvIn(c, b), ls) == Search(EnvIn(c, b))
  }

  /** The trial is evaluated and what an accepted point needs computed. */
  ghost predicate Evaluated<V(!new), M(!new)>(c: Setting<V, M>, b: Bufs<V, M>, ls: Ls, lo: LoAt, evals: nat, fx: real) {
    && Coherent(c.k, b) && LoHeld(c.k, b, lo, ls.iLo) && lo != AtCurrent && Descends(c, b)
    && b.x == PointAt(c.k, b, ls.step) && fx == c.k.f(b.x) && b.dg == c.k.dot(b.g, b.d)
    && -1 <= ls.iter && evals == ls.iter + 2 <= c.r.p.maxLinesearch + 1
    && LoHolds(EnvIn(c, b), ls) && Ahead(c.r, ls)
    && Resume(EnvIn(c, b), ls) == Search(EnvIn(c, b))
  }

  /** The search is over at the bracket's lower end, which lo places. */
  ghost predicate Restorable<V(!new), M(!new)>(c: Setting<V, M>, b: Bufs<V, M>, iLo: real, lo: LoAt, evals: nat, fx: real) {
    && Coherent(c.k, b) && LoHeld(c.k, b, lo, iLo) && Descends(c, b) && evals <= c.r.p.maxLinesearch + 1
    && Search(EnvIn(c, b)) == Stop(iLo, fx)
  }

  /** x is the point where the search stops, fx what it reports, and the next update's
        quantities belong to x. */
  ghost predicate Settled<V(!new), M(!new)>(c: Setting<V, M>, b: Bufs<V, M>, at: real, evals: nat, fx: real) {
    && Coherent(c.k, b) && Descends(c, b) && b.x == PointAt(c.k, b, at) && evals <= c.r.p.maxLinesearch + 1
    && Search(EnvIn(c, b)) == Stop(at, fx)
  }

  lemma EnvValues<V, M>(c: Setting<V, M>, b: Bufs<V, M>, s: real)
    ensures EnvIn(c, b).value(s) == c.k.f(PointAt(c.k, b, s))
    ensures EnvIn(c, b).slope(s) == c.k.dot(c.k.grad(PointAt(c.k, b, s)), b.d)
    ensures EnvIn(c, b).r == c.r
  {
  }

  /** The environment depends on the start point and the direction only. */
  lemma SameEnv<V, M>(c: Setting<V, M>, b: Bufs<V, M>, b': Bufs<V, M>)
    requires b'.xp == b.xp && b'.d == b.d
    ensures EnvIn(c, b') == EnvIn(c, b) && forall s :: PointAt(c.k, b', s) == PointAt(c.k, b, s)
  {
  }

  /** The search's point at step 0 is its start point. */
  lemma StartIsStepZero<V(!new), M(!new)>(k: Kernels<V, M>, b: Bufs<V, M>)
    requires Lawful(k) && k.inBox(b.xp)
    ensures PointAt(k, b, 0.0) == b.xp
  {
  }

  lemma PointsInBox<V(!new), M(!new)>(k: Kernels<V, M>, b: Bufs<V, M>, s: real)
    requires Lawful(k)
    ensures k.inBox(PointAt(k, b, s))
  {
  }

  lemma Opened<V(!new), M(!new)>(c: Setting<V, M>, b: Bufs<V, M>)
    requires Lawful(c.k) && Poised(c.k, b) && Descends(c, b) && c.r.p.maxLinesearch >= 0
    ensures var ls := Opening(c.r);
            Searching(c, Moved(c.k, b, AtStart, ls.step), ls, AtStart, 0)
  {
    hide Lawful, Resume, Search, Sane, Untouched, Touched, Aux;
    var e := EnvIn(c, b);
    var ls := Opening(e.r);
    OpeningHolds(e.r);
    ResumeAtStart(e);
    SameEnv(c, b, Moved(c.k, b, AtStart, ls.step));
  }

  /** The caller's gradient is in g: a trial's post-evaluation phase. */
  function PostTrial<V, M>(k: Kernels<V, M>, b: Bufs<V, M>): Bufs<V, M> {
    Post(k, b.(dg := k.dot(b.g, b.d)))
  }

  lemma Evaluate<V(!new), M(!new)>(c: Setting<V, M>, b: Bufs<V, M>, ls: Ls, lo: LoAt, evals: nat, fx: real)
    requires Lawful(c.k) && Searching(c, b, ls, lo, evals) && b.g == c.k.grad(b.x) && fx == c.k.f(b.x)
    ensures Evaluated(c, PostTrial(c.k, b), ls, lo, evals + 1, fx)
  {
    PointsInBox(c.k, b, ls.step);
    SameEnv(c, b, PostTrial(c.k, b));
    hide Lawful, Resume, Search, LoHolds, Ahead, EnvIn, PointAt, Aimed, Sane, EndsAt;
  }

  /** The point just evaluated ends the search. */
  lemma SettledHere<V(!new), M(!new)>(c: Setting<V, M>, b: Bufs<V, M>, ls: Ls, lo: LoAt, evals: nat, fx: real)
    requires Evaluated(c, b, ls, lo, evals, fx) && Resume(EnvIn(c, b), ls) == Stop(ls.step, fx)
    ensures Settled(c, b, ls.step, evals, fx)
  {
    hide Resume, Search, LoHolds, Ahead, EnvIn, PointAt, Coherent, LoHeld;
  }

  /** x_lo placed by a bracket update. */
  function LoAfter(r: Rules, ls: Ls, lo: LoAt, fx: real): LoAt {
    if TakesLo(r, ls, fx) then AtCurrent else lo
  }

  lemma LoPlaced<V(!new), M(!new)>(c: Setting<V, M>, b: Bufs<V, M>, ls: Ls, lo: LoAt, evals: nat, fx: real)
    requires Evaluated(c, b, ls, lo, evals, fx)
    ensures LoHeld(c.k, b, LoAfter(c.r, ls, lo, fx), Narrow(c.r, ls, fx, b.dg).iLo)
  {
    hide Resume, Search, LoHolds, Ahead, Narrow, TakesLo;
    EnvValues(c, b, ls.step);
    NarrowHolds(EnvIn(c, b), ls, fx, b.dg);
  }

  /** A pass that goes on: the next trial. */
  lemma NextTrial<V(!new), M(!new)>(c: Setting<V, M>, b: Bufs<V, M>, ls: Ls, lo: LoAt, evals: nat, fx: real)
    requires Lawful(c.k) && Evaluated(c, b, ls, lo, evals, fx)
    requires ls.iter + 1 < c.r.p.maxLinesearch
    requires var at := ls.(iter := ls.iter + 1);
             && Resume(EnvIn(c, b), ls) == Loop(EnvIn(c, b), at, fx, b.dg)
             && Body(c.r, at, fx, b.dg).Go?
    ensures var e := EnvIn(c, b);
            var ls' := Body(e.r, ls.(iter := ls.iter + 1), fx, b.dg).ls;
            var lo' := LoAfter(c.r, ls, lo, fx);
            Searching(c, Moved(c.k, b, lo', ls'.step), ls', if lo' == AtCurrent then AtBuffer else lo', evals)
  {
    var e := EnvIn(c, b);
    var at := ls.(iter := ls.iter + 1);
    var ls' := Body(e.r, at, fx, b.dg).ls;
    var lo' := LoAfter(c.r, ls, lo, fx);
    var b' := Moved(c.k, b, lo', ls'.step);
    EnvValues(c, b, ls.step);
    SameLo(e, ls, at);
    BodyHolds(e, at, fx, b.dg);
    ResumeInLoop(e, at, fx, b.dg);
    LoPlaced(c, b, ls, lo, evals, fx);
    NarrowIgnoresIter(c.r, ls, at, fx, b.dg);
    SameEnv(c, b, b');
    hide Lawful, Resume, Search, LoHolds, Ahead, EnvIn, PointAt, Coherent, Narrow, NewStep, Loop;
  }

  lemma NarrowIgnoresIter(r: Rules, ls: Ls, at: Ls, f: real, g: real)
    requires at == ls.(iter := at.iter)
    ensures Narrow(r, at, f, g) == Narrow(r, ls, f, g).(iter := at.iter) && NewStep(r, at, f, g) == NewStep(r, ls, f, g)
    ensures TakesLo(r, at, f) == TakesLo(r, ls, f) && Aux(r, at.step, f) == Aux(r, ls.step, f)
  {
  }

  /** The step_max exit: x_lo, wherever it is, ends the search. */
  lemma RestoreAtStepMax<V(!new), M(!new)>(c: Setting<V, M>, b: Bufs<V, M>, ls: Ls, lo: LoAt, evals: nat, fx: real)
    requires Evaluated(c, b, ls, lo, evals, fx) && ls.iter + 1 < c.r.p.maxLinesearch
    requires var at := ls.(iter := ls.iter + 1);
             && Resume(EnvIn(c, b), ls) == Loop(EnvIn(c, b), at, fx, b.dg)
             && Body(c.r, at, fx, b.dg).Restore?
    ensures var e := EnvIn(c, b);
            var iLo := Body(e.r, ls.(iter := ls.iter + 1), fx, b.dg).ls.iLo;
            Restorable(c, b, iLo, LoAfter(c.r, ls, lo, fx), evals, fx)
  {
    var e := EnvIn(c, b);
    var at := ls.(iter := ls.iter + 1);
    LoPlaced(c, b, ls, lo, evals, fx);
    NarrowIgnoresIter(c.r, ls, at, fx, b.dg);
    hide Resume, Search, LoHolds, Ahead, EnvIn, PointAt, Coherent, LoHeld, Narrow, NewStep;
  }

  /** Out of passes: x_lo ends the search with its own value. */
  lemma RestoreAtEnd<V(!new), M(!new)>(c: Setting<V, M>, b: Bufs<V, M>, ls: Ls, lo: LoAt, evals: nat, fx: real)
    requires Evaluated(c, b, ls, lo, evals, fx) && ls.iter + 1 >= c.r.p.maxLinesearch
    requires Resume(EnvIn(c, b), ls) == Loop(EnvIn(c, b), ls.(iter := ls.iter + 1), fx, b.dg)
    requires !TakesLo(c.r, ls, fx) && ls.iLo > 0.0
    ensures Restorable(c, b, ls.iLo, lo, evals, ls.fxLo)
  {
    NarrowIgnoresIter(c.r, ls, ls.(iter := ls.iter + 1), fx, b.dg);
    EnvValues(c, b, ls.step);
    hide Resume, Search, LoHolds, Ahead, EnvIn, PointAt, Coherent, LoHeld, Narrow, NewStep, TakesLo;
  }

  lemma RestoredHere<V(!new), M(!new)>(c: Setting<V, M>, b: Bufs<V, M>, iLo: real, evals: nat, fx: real)
    requires Restorable(c, b, iLo, AtCurrent, evals, fx)
    ensures Settled(c, b, iLo, evals, fx)
  {
    hide Search, EnvIn, PointAt, Coherent;
  }

  lemma RestoredFrom<V(!new), M(!new)>(c: Setting<V, M>, b: Bufs<V, M>, iLo: real, lo: LoAt, evals: nat, fx: real)
    requires Lawful(c.k) && Restorable(c, b, iLo, lo, evals, fx) && lo != AtCurrent
    ensures Settled(c, Restored(c.k, b, lo), iLo, evals, fx)
  {
    StartIsStepZero(c.k, b);
    PointsInBox(c.k, b, iLo);
    SameEnv(c, b, Restored(c.k, b, lo));
    hide Search, EnvIn, PointAt, Lawful;
  }

  /** A direction phase from a point: x stays, the direction is the subspace's from the
      Cauchy point under the memory it leaves. */
  lemma DirectedIsPoised<V(!new), M(!new)>(k: Kernels<V, M>, b: Bufs<V, M>, reset: bool, maxSubmin: int)
    requires Lawful(k) && Current(k, b)
    ensures var b' := Directed(k, b, reset, maxSubmin);
            && Poised(k, b') && b'.x == b.x && b'.g == b.g && b'.sv == b.sv && b'.yv == b.yv
            && SubspaceAim(k, maxSubmin, b'.x, b'.g, b'.mem, b'.xcp, b'.dcp, b'.d)
            && b'.mem == (if reset then k.reset(b.mem) else k.store(k.add(b.mem, b.dots), b.sv, b.yv))
            && (!reset ==> b'.pivotsOk == k.pivotsOk(k.add(b.mem, b.dots)))
  {
  }

  lemma DirectedHasLearnt<V(!new), M(!new)>(k: Kernels<V, M>, b: Bufs<V, M>, maxSubmin: int)
    requires Lawful(k) && Coherent(k, b)
    ensures Learnt(k, Directed(k, b, false, maxSubmin))
  {
    DirectedIsPoised(k, b, false, maxSubmin);
    hide Directed;
    assert LearntFrom(k, Directed(k, b, false, maxSubmin), b.mem, b.xp);
  }

  lemma PathologicalIsPoised<V(!new), M(!new)>(k: Kernels<V, M>, b: Bufs<V, M>)
    requires Poised(k, b) && AtCauchy(k, b.x, b.g, b.mem, b.xcp, b.dcp)
    ensures var b' := Pathological(k, b);
            && Poised(k, b') && b'.x == b.x && b'.g == b.g && b'.mem == k.reset(b.mem)
            && b'.d == k.combine(k.cauchy(b.mem, b.x, b.g), b.x, 1.0, -1.0)
            && ResetAim(k, b'.x, b'.g, b'.mem, b'.xcp, b'.dcp, b'.d)
  {
  }

  /** No pass of the search makes an error. */
  ghost predicate Clean<V(!new), M(!new)>(c: Setting<V, M>, b: Bufs<V, M>) {
    c.r.p.minStep > 0.0 && SearchClean(EnvIn(c, b))
  }

  /** What an accepted point is worth: it meets the ftol bound of its line, so it is not
      above the start of a search with no negative minimum step and strictly below it when
      the minimum step is positive; fx is its value when no pass makes an error. */
  lemma SettledDecreases<V(!new), M(!new)>(c: Setting<V, M>, b: Bufs<V, M>, at: real, evals: nat, fx: real)
    requires Settled(c, b, at, evals, fx)
    ensures Aux(c.r, at, c.k.f(b.x)) <= 0.0
    ensures c.r.p.minStep >= 0.0 ==> at >= 0.0 && c.k.f(b.x) <= c.r.line.fxInit
    ensures c.r.p.minStep > 0.0 ==> at > 0.0 && c.k.f(b.x) < c.r.line.fxInit
    ensures fx == c.k.f(b.x) || KeptTrial(EnvIn(c, b), Stop(at, fx))
    ensures Clean(c, b) ==> fx == c.k.f(b.x)
  {
    var e := EnvIn(c, b);
    EnvValues(c, b, at);
    SearchDecreases(e);
    if Clean(c, b) { SearchExact(e); }
    hide Search, Aux, EnvIn, KeptTrial, PointAt, Sane, SearchClean;
    if c.r.p.minStep >= 0.0 { StepDecreases(e, at); }
  }

  /** An accepted point is below what was reported for the point its search started from,
      and below that point itself when that was found without an error. */
  ghost predicate Improves<V(!new), M(!new)>(c: Setting<V, M>, b: Bufs<V, M>)
    requires |c.trail| > 0
  {
    var last := c.trail[|c.trail| - 1];
    && c.k.f(b.xp) == last.value
    && (c.r.p.minStep >= 0.0 ==> c.k.f(b.x) <= last.fx)
    && (c.r.p.minStep > 0.0 ==> c.k.f(b.x) < last.fx && (last.clean ==> c.k.f(b.x) < c.k.f(b.xp)))
  }

  lemma SettledImproves<V(!new), M(!new)>(c: Setting<V, M>, b: Bufs<V, M>, at: real, evals: nat, fx: real)
    requires Settled(c, b, at, evals, fx)
    ensures |c.trail| > 0 && Improves(c, b)
  {
    SettledDecreases(c, b, at, evals, fx);
    hide Search, EnvIn, PointAt, Sane, Clean, Aux, KeptTrial;
  }

  /** The accepted point joins the trail. */
  lemma TrailGrows<V(!new), M(!new)>(c: Setting<V, M>, b: Bufs<V, M>, at: real, evals: nat, fx: real)
    requires Settled(c, b, at, evals, fx)
    ensures EndsAt(c.r.p, c.trail + [Accepted(c.k.f(b.x), fx, Clean(c, b))], c.k.f(b.x), fx)
  {
    SettledDecreases(c, b, at, evals, fx);
    hide Search, EnvIn, PointAt, Sane, Clean, Aux, KeptTrial, Coherent;
    var next := Accepted(c.k.f(b.x), fx, Clean(c, b));
    var longer := c.trail + [next];
    forall i | 0 < i < |longer| ensures Below(c.r.p, longer, i) {
      if i < |c.trail| { assert Below(c.r.p, c.trail, i); }
    }
  }

  // --- the driver --------------------------------------------------------------------------------

  datatype Status = Busy | NeedEval | Try | Accept | Converged | Fail
  datatype Phase = PNone | PInit | PX0 | PPrep | PDir | PDirReset | PPatho | PTrial | PPost | PRestore
  datatype Await = ANone | AEval0 | ATrial | AAccept | ADone

  /** Why FAIL. */
  datatype Why = Nothing | BadCount | BadHistory | OutOfRange | BadBounds | VecFailed | NotStarted
               | StepNotPositive | NotDescending | NoDecrease | StepTooSmall | StepTooLarge
               | StepNotANumber

  /** Which test CONVERGED passed. */
  datatype Test = NoTest | Gradient | Delta | IterationCap

  const MAX_HISTORY: int := 16

  predicate ParamsInRange(p: Params) {
    && 1 <= p.m <= MAX_HISTORY && p.maxSubmin >= 0 && p.maxLinesearch >= 0
    && 0.0 < p.ftol < 0.5 && p.ftol < p.wolfe < 1.0
  }

  /** Why start() refuses, or nothing. */
  function Refused(n: nat, boundsOk: bool, p: Params, vecOk: bool): (why: Why)
    ensures why == Nothing <==> n > 0 && ParamsInRange(p) && boundsOk && vecOk
  {
    if n == 0 then BadCount
    else if p.m < 1 || p.m > MAX_HISTORY then BadHistory
    else if p.maxSubmin < 0 || p.maxLinesearch < 0 || !(p.ftol > 0.0 && p.ftol < 0.5) || !(p.wolfe > p.ftol && p.wolfe < 1.0) then OutOfRange
    else if !boundsOk then BadBounds
    else if !vecOk then VecFailed
    else Nothing
  }

  lemma BegunInBox<V(!new), M(!new)>(k: Kernels<V, M>, b: Bufs<V, M>, x0: V)
    requires Lawful(k)
    ensures Begun(k, b, x0).x == k.project(x0) && k.inBox(k.project(x0))
    ensures Begun(k, b, x0).mem == k.reset(b.mem) && WasReset(k, Begun(k, b, x0).mem)
  {
  }

  /** What each phase in flight has computed. */
  ghost predicate InPhase<V(!new), M(!new)>(c: Setting<V, M>, phase: Phase, b: Bufs<V, M>, ls: Ls, lo: LoAt, evals: nat, fx: real, accepted: real) {
    match phase
    case PNone => true
    case PInit => c.k.inBox(b.x) && c.trail == [] && WasReset(c.k, b.mem)
    case PX0 =>
      && Current(c.k, b) && fx == c.k.f(b.x) && b.pg == c.k.pgInf(b.x, b.g) && b.xx == c.k.dot(b.x, b.x)
      && AtCauchy(c.k, b.x, b.g, b.mem, b.xcp, b.dcp) && b.nn == c.k.dot(b.dcp, b.dcp) && WasReset(c.k, b.mem)
      && EndsAt(c.r.p, c.trail, fx, fx)
    case PPrep =>
      && Poised(c.k, b) && EndsAt(c.r.p, c.trail, c.k.f(b.x), fx)
      && FirstAim(c.k, b.x, b.g, b.mem, b.xcp, b.dcp, b.d) && WasReset(c.k, b.mem)
    case PDir =>
      && Poised(c.k, b) && EndsAt(c.r.p, c.trail, c.k.f(b.x), fx)
      && SubspaceAim(c.k, c.r.p.maxSubmin, b.x, b.g, b.mem, b.xcp, b.dcp, b.d) && Learnt(c.k, b)
    case PDirReset =>
      && Poised(c.k, b) && EndsAt(c.r.p, c.trail, c.k.f(b.x), fx)
      && SubspaceAim(c.k, c.r.p.maxSubmin, b.x, b.g, b.mem, b.xcp, b.dcp, b.d) && WasReset(c.k, b.mem)
    case PPatho =>
      && Poised(c.k, b) && EndsAt(c.r.p, c.trail, c.k.f(b.x), fx)
      && ResetAim(c.k, b.x, b.g, b.mem, b.xcp, b.dcp, b.d)
    case PTrial => Searching(c, b, ls, lo, evals)
    case PPost => Evaluated(c, b, ls, lo, evals, fx)
    case PRestore => Settled(c, b, accepted, evals, fx)
  }

  predicate FlatGradient(p: Params, pg: real, xnorm: real) {
    pg <= p.epsilon || pg <= p.epsilonRel * xnorm
  }

  /** The value changed little over the last `past` iterations. */
  predicate FlatValue(p: Params, fxHist: seq<real>, iterations: nat, fx: real)
    requires |fxHist| == if p.past > 0 then p.past else 0
  {
    && p.past > 0 && iterations >= p.past
    && var fxd := fxHist[iterations % p.past];
       Abs(fxd - fx) <= p.delta * Max(Max(Abs(fx), Abs(fxd)), 1.0)
  }

  predicate CapReached(p: Params, iterations: nat) {
    p.maxIterations != 0 && iterations >= p.maxIterations
  }

  class Lbfgsb<V(!new), M(!new)> {
    const k: Kernels<V, M>
    /** A largest feasible step from here on counts as unbounded. */
    const unbounded: real

    var p: Params
    var b: Bufs<V, M>
    var phase: Phase
    var await: Await
    var err: Why
    var reason: Test
    var iterations: nat
    var fx: real
    var pg: real
    var xnorm: real
    var fxHist: seq<real>
    var dg: real
    var line: Line
    var ls: Ls
    var lo: LoAt

    /** Evaluations the running search has asked for, and the step it accepted. */
    ghost var evals: nat
    ghost var accepted: real
    /** The points searches started from. */
    ghost var trail: seq<Accepted>

    constructor (k: Kernels<V, M>, unbounded: real, b: Bufs<V, M>, p: Params)
      ensures this.k == k && phase == PNone && await == ANone
    {
      this.k, this.unbounded := k, unbounded;
      this.p, this.b := p, b;
      phase, await, err, reason, iterations := PNone, ANone, Nothing, NoTest, 0;
      fx, pg, xnorm, dg := 0.0, 0.0, 0.0, 0.0;
      fxHist := [];
      line := Line(0.0, 0.0, 0.0);
      ls := Ls(0.0, -1, 0.0, Infinite, 0.0, Infinite, 0.0, Infinite, 0.0, 0.0);
      lo := AtStart;
      evals, accepted, trail := 0, 0.0, [];
    }

    ghost function C(): Setting<V, M>
      reads this`p, this`line, this`trail
    {
      Setting(k, Rules(p, line, k.root), trail)
    }

    /** The projected gradient's norm and the point's are those of the buffers. */
    ghost predicate NormsRead()
      reads this`b, this`pg, this`xnorm
    {
      pg == b.pg && xnorm == k.root(Max(0.0, b.xx))
    }

    ghost predicate Ready()
      reads this`p, this`fxHist
    {
      Lawful(k) && ParamsInRange(p) && |fxHist| == if p.past > 0 then p.past else 0
    }

    ghost predicate Valid()
      reads this
    {
      && Lawful(k)
      && (await == AEval0 ==> Ready() && k.inBox(b.x) && trail == [] && WasReset(k, b.mem))
      && (await == ATrial ==> Ready() && Searching(C(), b, ls, lo, evals))
      && (await == AAccept ==> Ready() && Settled(C(), b, accepted, evals, fx) && NormsRead())
      && (await == ANone && phase != PNone ==> Ready() && InPhase(C(), phase, b, ls, lo, evals, fx, accepted))
    }

    method Failed(why: Why) returns (st: Status)
      requires Lawful(k)
      modifies `err, `await, `phase
      ensures Valid() && st == Fail && err == why && await == ADone && phase == PNone
    {
      hide Lawful, Post, PostTrial, Moved, Restored, AtX0, FirstDirected, Pathological, Directed, Begun;
      err, await, phase := why, ADone, PNone;
      return Fail;
    }

    method Clear(p: Params)
      modifies this
      ensures this.p == p && b == old(b) && iterations == 0 && await == ANone && phase == PNone && trail == []
    {
      this.p := p;
      err, reason, iterations, trail := Nothing, NoTest, 0, [];
      fx, pg, xnorm, await, phase := 0.0, 0.0, 0.0, ANone, PNone;
    }

    /** start(): checks the parameters and bounds, then forces x0 into the box. */
    method Start(n: nat, x0: V, boundsOk: bool, p: Params, vecOk: bool) returns (st: Status)
      requires Lawful(k)
      modifies this
      ensures Valid() && (st == Busy || st == Fail)
      ensures st == Busy <==> n > 0 && ParamsInRange(p) && boundsOk && vecOk
      ensures st == Busy ==> phase == PInit && await == ANone && b.x == k.project(x0) && iterations == 0
      ensures st == Busy ==> b.mem == k.reset(old(b).mem)
    {
      hide *;
      Clear(p);
      var why := Refused(n, boundsOk, p, vecOk);
      if why != Nothing {
        st := Failed(why);
      } else {
        st := Begin(x0);
      }
    }

    method Begin(x0: V) returns (st: Status)
      requires Lawful(k) && ParamsInRange(p) && await == ANone && trail == [] && iterations == 0
      modifies `fxHist, `b, `phase
      ensures Valid() && st == Busy && phase == PInit && b.x == k.project(x0) && b.mem == k.reset(old(b).mem)
    {
      hide *;
      fxHist := seq(if p.past > 0 then p.past else 0, i => 0.0);
      b := Begun(k, b, x0);
      BegunInBox(k, old(b), x0);
      phase := PInit;
      ValidInit();
      return Busy;
    }

    lemma ValidInit()
      requires Lawful(k) && ParamsInRange(p) && |fxHist| == (if p.past > 0 then p.past else 0)
      requires await == ANone && phase == PInit && k.inBox(b.x) && trail == [] && WasReset(k, b.mem)
      ensures Valid()
    {
      hide Lawful, ParamsInRange, WasReset;
    }

    /** The caller's gradient of the point it was asked to evaluate. */
    method SetGradient(g: V)
      requires Valid() && (await == AEval0 || await == ATrial)
      modifies `b
      ensures Valid() && b == old(b).(g := g)
    {
      hide Lawful, ParamsInRange, Settled, InPhase, Post, PostTrial, Moved, Restored, AtX0, FirstDirected, Pathological, Directed, Begun;
      if await == ATrial { GradientApart(C(), b, b.(g := g), ls, lo, evals); }
      b := b.(g := g);
    }

    // --- the line search ---------------------------------------------------------------------

    /** The first convergence test the point passes, or none. */
    method Passed() returns (test: Test)
      requires |fxHist| == if p.past > 0 then p.past else 0
      ensures test == if FlatGradient(p, pg, xnorm) then Gradient
                      else if FlatValue(p, fxHist, iterations, fx) then Delta
                      else if CapReached(p, iterations) then IterationCap
                      else NoTest
    {
      if pg <= p.epsilon || pg <= p.epsilonRel * xnorm { return Gradient; }
      if p.past > 0 {
        var fxd := fxHist[iterations % p.past];
        if iterations >= p.past && Abs(fxd - fx) <= p.delta * Max(Max(Abs(fx), Abs(fxd)), 1.0) { return Delta; }
      }
      return if p.maxIterations != 0 && iterations >= p.maxIterations then IterationCap else NoTest;
    }

    /** accept(): the convergence tests after a line search. */
    method AcceptPoint() returns (st: Status)
      requires Ready() && Settled(C(), b, accepted, evals, fx) && NormsRead()
      modifies `await, `reason, `fxHist
      ensures Valid() && (st == Accept || st == Converged)
      ensures st == Accept <==> await == AAccept
      ensures st == Converged <==> await == ADone
      ensures st == Converged <==>
              FlatGradient(p, pg, xnorm) || FlatValue(p, old(fxHist), iterations, fx) || CapReached(p, iterations)
      ensures st == Converged ==>
                reason == if FlatGradient(p, pg, xnorm) then Gradient
                          else if FlatValue(p, old(fxHist), iterations, fx) then Delta
                          else IterationCap
      ensures st == Accept ==> fxHist == if p.past > 0 then old(fxHist)[iterations % p.past := fx] else old(fxHist)
    {
      hide Lawful, ParamsInRange, Settled, InPhase, Searching, FlatGradient, FlatValue, CapReached, Post, PostTrial, Moved, Restored, AtX0, FirstDirected, Pathological, Directed, Begun;
      var test := Passed();
      if test != Gradient && test != Delta && p.past > 0 { fxHist := fxHist[iterations % p.past := fx]; }
      if test != NoTest {
        reason, await := test, ADone;
        return Converged;
      }
      await := AAccept;
      return Accept;
    }

    /** What the steps of a search promise: a further phase in flight, an accepted point
        that is where the search stops, or a failure of the backend or of the search. */
    ghost predicate Stepped(st: Status, vecOk: bool)
      reads this
    {
      && Valid()
      && (st == Busy ==> await == ANone && (phase == PTrial || phase == PRestore))
      && (st == Accept ==> await == AAccept)
      && (st == Converged ==> await == ADone && Settled(C(), b, accepted, evals, fx) && NormsRead())
      && (st == Converged && reason == Gradient ==> FlatGradient(p, pg, xnorm))
      && (st == Fail ==> await == ADone && (vecOk ==> Search(EnvIn(C(), b)) == Broken))
      && (st == Busy || st == Accept || st == Converged || st == Fail)
    }

    method AcceptHere(vecOk: bool) returns (st: Status)
      requires Ready() && Settled(C(), b, accepted, evals, fx) && NormsRead()
      modifies `await, `reason, `fxHist
      ensures Stepped(st, vecOk) && (st == Accept || st == Converged)
    {
      hide Lawful, ParamsInRange, Settled, InPhase, Searching, Search, EnvIn, Post, PostTrial, Moved, Restored, AtX0, FirstDirected, Pathological, Directed, Begun;
      st := AcceptPoint();
    }

    /** restoreLo(): x becomes the bracket's lower end, copied from where that lives unless
        it is the current point. */
    method RestoreLo(vecOk: bool) returns (st: Status)
      requires Ready() && Restorable(C(), b, ls.iLo, lo, evals, fx) && NormsRead()
      modifies this
      ensures Stepped(st, vecOk) && trail == old(trail)
      ensures st == Busy <==> old(lo) != AtCurrent && vecOk
      ensures st == Busy ==> phase == PRestore && b == Restored(k, old(b), old(lo))
      ensures st == Accept || st == Converged ==> old(lo) == AtCurrent && b == old(b)
    {
      hide *;
      accepted := ls.iLo;
      if lo == AtCurrent {
        RestoredHere(C(), b, ls.iLo, evals, fx);
        st := AcceptHere(vecOk);
      } else if !vecOk {
        ReadyIsLawful();
        st := Failed(VecFailed);
        FailedSteps(st, vecOk);
      } else {
        st := CopyLo();
        SteppedBusy(st, vecOk);
      }
    }

    method CopyLo() returns (st: Status)
      requires Ready() && Restorable(C(), b, ls.iLo, lo, evals, fx) && NormsRead() && lo != AtCurrent && accepted == ls.iLo
      modifies `b, `await, `phase
      ensures Valid() && st == Busy && await == ANone && phase == PRestore && b == Restored(k, old(b), lo)
    {
      hide Lawful, ParamsInRange, Settled, InPhase, Searching, Search, EnvIn, Restorable, Restored;
      ReadyIsLawful();
      RestoredFrom(C(), b, ls.iLo, lo, evals, fx);
      b := Restored(k, b, lo);
      await, phase := ANone, PRestore;
      InRestore(C(), b, ls, lo, evals, fx, accepted);
      return Busy;
    }

    lemma ReadyIsLawful()
      requires Ready()
      ensures Lawful(k)
    {
      hide Lawful;
    }

    lemma FailedSteps(st: Status, vecOk: bool)
      requires Valid() && st == Fail && await == ADone && !vecOk
      ensures Stepped(st, vecOk)
    {
      hide Valid;
    }

    lemma SteppedBusy(st: Status, vecOk: bool)
      requires Valid() && st == Busy && await == ANone && (phase == PTrial || phase == PRestore)
      ensures Stepped(st, vecOk)
    {
      hide Valid;
    }

    static lemma InRestore(c: Setting<V, M>, b: Bufs<V, M>, ls: Ls, lo: LoAt, evals: nat, fx: real, accepted: real)
      requires Settled(c, b, accepted, evals, fx)
      ensures InPhase(c, PRestore, b, ls, lo, evals, fx, accepted)
    {
      hide Settled;
    }

    static lemma InTrial(c: Setting<V, M>, b: Bufs<V, M>, ls: Ls, lo: LoAt, evals: nat, fx: real, accepted: real)
      requires Searching(c, b, ls, lo, evals)
      ensures InPhase(c, PTrial, b, ls, lo, evals, fx, accepted)
    {
      hide Searching;
    }

    /** trial(): x moves to ls.step, x_lo taking the current point first if it is that. */
    method Trial(vecOk: bool) returns (st: Status)
      requires Ready() && Searching(C(), Moved(k, b, lo, ls.step), ls, if lo == AtCurrent then AtBuffer else lo, evals)
      modifies `b, `lo, `phase, `await, `err
      ensures Valid()
      ensures vecOk ==> b == Moved(k, old(b), old(lo), ls.step)
      ensures if vecOk then st == Busy && await == ANone && phase == PTrial else st == Fail && await == ADone && phase == PNone
    {
      hide Lawful, ParamsInRange, Settled, InPhase, Searching, Search, EnvIn, Post, PostTrial, Moved, Restored, AtX0, FirstDirected, Pathological, Directed, Begun;
      var from := lo;
      if lo == AtCurrent { lo := AtBuffer; }
      if !vecOk {
        st := Failed(VecFailed);
        return;
      }
      b := Moved(k, b, from, ls.step);
      await, phase := ANone, PTrial;
      InTrial(C(), b, ls, lo, evals, fx, accepted);
      return Busy;
    }

    /** bodyA(): one pass of the loop up to the next evaluation. */
    method BodyA(vecOk: bool, ghost was: Ls) returns (st: Status)
      requires Ready() && Evaluated(C(), b, was, lo, evals, fx) && NormsRead() && dg == b.dg
      requires ls == was.(iter := was.iter + 1) && ls.iter < p.maxLinesearch
      requires Resume(EnvIn(C(), b), was) == Loop(EnvIn(C(), b), ls, fx, b.dg)
      modifies this
      ensures Stepped(st, vecOk) && trail == old(trail)
    {
      hide TakesLo, NewStep, Narrow, NormsRead, FlatGradient, Aimed, Lawful, ParamsInRange, Settled, InPhase, Searching, Search, EnvIn, Restorable, Evaluated, Resume, Loop, Body, Post, PostTrial, Moved, Restored, AtX0, FirstDirected, Pathological, Directed, Begun;
      var r := Rules(p, line, k.root);
      EnvValues(C(), b, 0.0);
      var turn := Body(r, ls, fx, dg);
      var taken := TakesLo(r, ls, fx);
      NarrowIgnoresIter(r, was, ls, fx, dg);
      match turn {
        case Refuse =>
          RefusedIsBroken(C(), b, ls, fx);
          EvaluatedResumes(C(), b, was, lo, evals, fx);
          var s := NewStep(r, ls, fx, dg);
          st := Failed(if s.Num? && s.x < p.minStep then StepTooSmall else StepTooLarge);
        case Lost =>
          RefusedIsBroken(C(), b, ls, fx);
          EvaluatedResumes(C(), b, was, lo, evals, fx);
          st := Failed(StepNotANumber);
        case Restore(ls') =>
          RestoreAtStepMax(C(), b, was, lo, evals, fx);
          ls := ls';
          if taken { lo := AtCurrent; }
          st := RestoreLo(vecOk);
        case Go(ls') =>
          NextTrial(C(), b, was, lo, evals, fx);
          ls := ls';
          if taken { lo := AtCurrent; }
          st := Trial(vecOk);
      }
    }

    /** afterEval(): the convergence test, the exits, or another pass. */
    method AfterEval(vecOk: bool) returns (st: Status)
      requires Ready() && Evaluated(C(), b, ls, lo, evals, fx) && NormsRead() && dg == b.dg
      modifies this
      ensures Stepped(st, vecOk) && trail == old(trail)
    {
      hide NormsRead, FlatGradient, Aimed, Lawful, ParamsInRange, Settled, InPhase, Searching, Search, EnvIn, Restorable, Evaluated, Loop, Body, TakesLo, StrongWolfe, Post, PostTrial, Moved, Restored, AtX0, FirstDirected, Pathological, Directed, Begun;
      var r := Rules(p, line, k.root);
      Resumes(C(), b, ls, lo, evals, fx);
      if StrongWolfe(r, ls.step, fx, dg) || (ls.iter >= 0 && ls.step >= line.stepMax && TakesLo(r, ls, fx)) {
        st := StopHere(vecOk);
        return;
      }
      ghost var was := ls;
      ls := ls.(iter := ls.iter + 1);
      NarrowIgnoresIter(r, was, ls, fx, dg);
      if ls.iter >= p.maxLinesearch {
        st := OutOfPasses(vecOk, was);
      } else {
        st := BodyA(vecOk, was);
      }
    }

    /** The point just evaluated is accepted. */
    method StopHere(vecOk: bool) returns (st: Status)
      requires Ready() && Evaluated(C(), b, ls, lo, evals, fx) && NormsRead()
      requires Resume(EnvIn(C(), b), ls) == Stop(ls.step, fx)
      modifies `accepted, `await, `reason, `fxHist
      ensures Stepped(st, vecOk)
    {
      hide NormsRead, FlatGradient, Aimed, Lawful, ParamsInRange, Settled, InPhase, Searching, Search, EnvIn, Evaluated, Resume, Post, PostTrial, Moved, Restored, AtX0, FirstDirected, Pathological, Directed, Begun;
      accepted := ls.step;
      SettledHere(C(), b, ls, lo, evals, fx);
      st := AcceptHere(vecOk);
    }

    /** The loop is out of passes: the last step if it beats the lower end, else that. */
    method OutOfPasses(vecOk: bool, ghost was: Ls) returns (st: Status)
      requires Ready() && Evaluated(C(), b, was, lo, evals, fx) && NormsRead() && dg == b.dg
      requires ls == was.(iter := was.iter + 1) && ls.iter >= p.maxLinesearch
      requires Resume(EnvIn(C(), b), was) == Loop(EnvIn(C(), b), ls, fx, b.dg)
      modifies this
      ensures Stepped(st, vecOk) && trail == old(trail)
    {
      hide NormsRead, FlatGradient, Aimed, Lawful, ParamsInRange, Settled, InPhase, Searching, Search, EnvIn, Restorable, Evaluated, Resume, Loop, TakesLo, Post, PostTrial, Moved, Restored, AtX0, FirstDirected, Pathological, Directed, Begun;
      var r := Rules(p, line, k.root);
      LastPass(C(), b, was, ls, lo, evals, fx);
      if TakesLo(r, ls, fx) {
        ls := ls.(iter := ls.iter - 1);
        st := StopHere(vecOk);
      } else if ls.iLo <= 0.0 {
        st := Failed(NoDecrease);
      } else {
        RestoreAtEnd(C(), b, was, lo, evals, fx);
        fx, dg := ls.fxLo, ls.dgLo;
        st := RestoreLo(vecOk);
      }
    }

    // --- directions ------------------------------------------------------------------------------

    /** lineSearchStart(): the direction's slope and room decide between the reset of a
        pathological direction and the first trial. */
    method LineSearchStart(afterPatho: bool, vecOk: bool) returns (st: Status)
      requires Ready() && Poised(k, b) && EndsAt(p, trail, k.f(b.x), fx)
      requires Aimed(k, p.maxSubmin, b.x, b.g, b.mem, b.xcp, b.dcp, b.d)
      requires !afterPatho ==> AtCauchy(k, b.x, b.g, b.mem, b.xcp, b.dcp)
      modifies this
      ensures trail == old(trail)
      ensures Valid() && (st == Busy || (st == Fail && await == ADone))
      ensures st == Busy ==> await == ANone && (phase == PPatho || phase == PTrial)
      ensures st == Busy && phase == PPatho ==> !afterPatho && (old(b).dg >= 0.0 || old(b).smax <= p.minStep)
      ensures st == Busy && phase == PPatho ==>
                b.d == k.combine(k.cauchy(old(b).mem, b.x, b.g), b.x, 1.0, -1.0) && b.mem == k.reset(old(b).mem) && b.x == old(b).x
      ensures st == Busy && phase == PTrial ==> evals == 0 && line.dgInit == old(b).dg && line.fxInit == old(fx)
      ensures st == Busy && phase == PTrial ==> b.d == old(b).d && b.xp == old(b).x && b.mem == old(b).mem
    {
      hide Aimed, AtCauchy, Lawful, ParamsInRange, Settled, InPhase, Searching, Search, Poised, Opening, Post, PostTrial, Moved, Restored, AtX0, FirstDirected, Pathological, Directed, Begun;
      dg := b.dg;
      var bounded := b.smax < unbounded;
      if !afterPatho && (dg >= 0.0 || (bounded && b.smax <= p.minStep)) {
        st := ResetDirection(vecOk);
        return;
      }
      var stepMax := if bounded then Min(p.maxStep, b.smax) else p.maxStep;
      if Min(1.0, stepMax) <= 0.0 {
        st := Failed(StepNotPositive);
        return;
      }
      line := Line(fx, dg, stepMax);
      if dg >= 0.0 {
        st := Failed(NotDescending);
        return;
      }
      st := FirstTrial(vecOk);
    }

    method ResetDirection(vecOk: bool) returns (st: Status)
      requires Ready() && Poised(k, b) && EndsAt(p, trail, k.f(b.x), fx)
      requires AtCauchy(k, b.x, b.g, b.mem, b.xcp, b.dcp)
      modifies `b, `err, `await, `phase
      ensures st == Busy ==>
                b.d == k.combine(k.cauchy(old(b).mem, b.x, b.g), b.x, 1.0, -1.0) && b.mem == k.reset(old(b).mem) && b.x == old(b).x
      ensures Valid() && (if vecOk then st == Busy && await == ANone && phase == PPatho else st == Fail && await == ADone && phase == PNone)
    {
      hide Lawful, ParamsInRange, Settled, InPhase, Searching, Search, Poised, AtCauchy, ResetAim, Post, PostTrial, Moved, Restored, AtX0, FirstDirected, Pathological, Directed, Begun;
      if !vecOk {
        st := Failed(VecFailed);
        return;
      }
      PathologicalIsPoised(k, b);
      b := Pathological(k, b);
      await, phase := ANone, PPatho;
      InPoised(C(), PPatho, b, ls, lo, evals, fx, accepted);
      return Busy;
    }

    static lemma InPoised(c: Setting<V, M>, phase: Phase, b: Bufs<V, M>, ls: Ls, lo: LoAt, evals: nat, fx: real, accepted: real)
      requires Poised(c.k, b) && EndsAt(c.r.p, c.trail, c.k.f(b.x), fx)
      requires
        || (phase == PPrep && FirstAim(c.k, b.x, b.g, b.mem, b.xcp, b.dcp, b.d) && WasReset(c.k, b.mem))
        || (phase == PDir && SubspaceAim(c.k, c.r.p.maxSubmin, b.x, b.g, b.mem, b.xcp, b.dcp, b.d) && Learnt(c.k, b))
        || (phase == PDirReset && SubspaceAim(c.k, c.r.p.maxSubmin, b.x, b.g, b.mem, b.xcp, b.dcp, b.d) && WasReset(c.k, b.mem))
        || (phase == PPatho && ResetAim(c.k, b.x, b.g, b.mem, b.xcp, b.dcp, b.d))
      ensures InPhase(c, phase, b, ls, lo, evals, fx, accepted)
    {
      hide Poised, FirstAim, SubspaceAim, ResetAim, Learnt, WasReset;
    }

    method FirstTrial(vecOk: bool) returns (st: Status)
      requires Ready() && Poised(k, b) && line.dgInit == b.dg < 0.0 && line.stepMax > 0.0
      requires line.fxInit == fx && EndsAt(p, trail, k.f(b.x), fx)
      requires Aimed(k, p.maxSubmin, b.x, b.g, b.mem, b.xcp, b.dcp, b.d)
      modifies this
      ensures trail == old(trail)
      ensures st == Busy ==> b.d == old(b).d && b.xp == old(b).x && b.mem == old(b).mem
      ensures Valid() && p == old(p) && line == old(line) && (st == Busy || (st == Fail && await == ADone))
      ensures st == Busy ==> await == ANone && phase == PTrial && evals == 0
      ensures st == Fail ==> phase == PNone
    {
      hide Lawful, Settled, InPhase, Searching, Search, Poised, Opening, EnvIn, Descends, Aimed, Post, PostTrial, Moved, Restored, AtX0, FirstDirected, Pathological, Directed, Begun;
      ghost var c := C();
      PoisedDescends(c, b);
      PoisedStart(k, b);
      MovedKeeps(k, b, AtStart, Opening(c.r).step);
      Opened(c, b);
      ls := Opening(Rules(p, line, k.root));
      lo := AtStart;
      evals := 0;
      assert c == C();
      st := Trial(vecOk);
    }

    static lemma PoisedStart(k: Kernels<V, M>, b: Bufs<V, M>)
      requires Poised(k, b)
      ensures b.xp == b.x && b.gp == b.g
    {
    }

    static lemma MovedKeeps(k: Kernels<V, M>, b: Bufs<V, M>, lo: LoAt, step: real)
      ensures var b' := Moved(k, b, lo, step); b'.d == b.d && b'.xp == b.xp && b'.mem == b.mem
    {
    }

    /** direction(): the next direction from the accepted point, or after a failed
        factorisation from the same point with the memory reset. */
    method Direction(reset: bool, vecOk: bool) returns (st: Status)
      requires Ready() && Current(k, b) && EndsAt(p, trail, k.f(b.x), fx) && (!reset ==> Coherent(k, b))
      modifies `b, `iterations, `err, `await, `phase
      ensures Valid() && (st == Busy || (st == Fail && await == ADone))
      ensures st == Busy ==> await == ANone && phase == (if reset then PDirReset else PDir) && b.x == old(b.x)
      ensures st == Busy && !reset ==> iterations == old(iterations) + 1
      ensures st == Busy && reset ==> b.mem == k.reset(old(b).mem)
      ensures st == Busy && !reset ==> b.mem == k.store(k.add(old(b).mem, old(b).dots), old(b).sv, old(b).yv)
      ensures st == Busy && !reset ==> b.pivotsOk == k.pivotsOk(k.add(old(b).mem, old(b).dots))
      ensures st == Busy ==> b.xcp == k.cauchy(b.mem, b.x, b.g) && b.d == k.subspace(b.mem, b.x, b.g, b.xcp, p.maxSubmin)
      ensures st == Busy ==> b.dcp == k.combine(b.xcp, b.x, 1.0, -1.0) && b.g == old(b).g
    {
      hide Lawful, ParamsInRange, Settled, InPhase, Searching, Search, Poised, Current, Learnt, WasReset, Coherent, Post, PostTrial, Moved, Restored, AtX0, FirstDirected, Pathological, Directed, Begun;
      if !reset { iterations := iterations + 1; }
      if !vecOk {
        st := Failed(VecFailed);
        return;
      }
      DirectedIsPoised(k, b, reset, p.maxSubmin);
      if reset { WasJustReset(k, b.mem); } else { DirectedHasLearnt(k, b, p.maxSubmin); }
      b := Directed(k, b, reset, p.maxSubmin);
      await, phase := ANone, if reset then PDirReset else PDir;
      InPoised(C(), phase, b, ls, lo, evals, fx, accepted);
      return Busy;
    }

    static lemma WasJustReset(k: Kernels<V, M>, mem: M)
      ensures WasReset(k, k.reset(mem))
    {
    }

    // --- next() --------------------------------------------------------------------------------

    /** The initial point is evaluated. */
    method NextX0(f: real, vecOk: bool) returns (st: Status)
      requires Valid() && await == AEval0 && b.g == k.grad(b.x) && f == k.f(b.x)
      modifies this
      ensures trail == [Accepted(f, f, true)]
      ensures Valid() && (if vecOk then st == Busy && await == ANone && phase == PX0 else st == Fail && await == ADone)
    {
      hide *;
      InBoxAtX0();
      HearX0(f);
      if !vecOk {
        ReadyIsLawful();
        st := Failed(VecFailed);
        return;
      }
      st := X0Phase();
    }

    lemma InBoxAtX0()
      requires Valid() && await == AEval0
      ensures Ready() && k.inBox(b.x) && WasReset(k, b.mem)
    {
      hide Lawful, Ready, WasReset, InPhase, Searching, Settled;
    }

    method HearX0(f: real)
      requires Ready()
      modifies `await, `fx, `fxHist, `trail
      ensures Ready() && await == ANone && fx == f && trail == [Accepted(f, f, true)]
    {
      hide Lawful, ParamsInRange;
      await, fx := ANone, f;
      trail := [Accepted(f, f, true)];
      if |fxHist| > 0 { fxHist := fxHist[0 := f]; }
    }

    method X0Phase() returns (st: Status)
      requires Ready() && await == ANone && k.inBox(b.x) && b.g == k.grad(b.x) && fx == k.f(b.x) && trail == [Accepted(fx, fx, true)]
      requires WasReset(k, b.mem)
      modifies `b, `phase
      ensures Valid() && st == Busy && phase == PX0
    {
      hide Lawful, ParamsInRange, Settled, InPhase, Searching, AtX0, WasReset;
      InX0(C(), b, ls, lo, evals, fx, accepted);
      b := AtX0(k, b);
      phase := PX0;
      return Busy;
    }

    static lemma FromPhase(c: Setting<V, M>, phase: Phase, b: Bufs<V, M>, ls: Ls, lo: LoAt, evals: nat, fx: real, accepted: real)
      requires InPhase(c, phase, b, ls, lo, evals, fx, accepted)
      ensures phase == PX0 ==>
                && Current(c.k, b) && b.pg == c.k.pgInf(b.x, b.g) && b.xx == c.k.dot(b.x, b.x)
                && AtCauchy(c.k, b.x, b.g, b.mem, b.xcp, b.dcp) && b.nn == c.k.dot(b.dcp, b.dcp) && WasReset(c.k, b.mem)
                && EndsAt(c.r.p, c.trail, c.k.f(b.x), fx)
      ensures phase == PPrep || phase == PDir || phase == PDirReset || phase == PPatho ==>
                && Poised(c.k, b) && EndsAt(c.r.p, c.trail, c.k.f(b.x), fx)
                && Aimed(c.k, c.r.p.maxSubmin, b.x, b.g, b.mem, b.xcp, b.dcp, b.d)
      ensures phase == PPrep || phase == PDir || phase == PDirReset ==> AtCauchy(c.k, b.x, b.g, b.mem, b.xcp, b.dcp)
      ensures phase == PPost ==> Evaluated(c, b, ls, lo, evals, fx)
      ensures phase == PRestore ==> Settled(c, b, accepted, evals, fx)
    {
      hide Poised, Evaluated, Settled, Searching, AtCauchy, ResetAim, WasReset, Learnt;
    }

    static lemma InX0(c: Setting<V, M>, b: Bufs<V, M>, ls: Ls, lo: LoAt, evals: nat, fx: real, accepted: real)
      requires c.k.inBox(b.x) && b.g == c.k.grad(b.x) && fx == c.k.f(b.x) && c.trail == [Accepted(fx, fx, true)]
      requires WasReset(c.k, b.mem)
      ensures InPhase(c, PX0, AtX0(c.k, b), ls, lo, evals, fx, accepted)
    {
    }

    /** A trial point is evaluated. */
    method NextEvaluated(f: real, vecOk: bool) returns (st: Status)
      requires Valid() && await == ATrial && b.g == k.grad(b.x) && f == k.f(b.x)
      modifies this
      ensures trail == old(trail)
      ensures Valid() && (if vecOk then st == Busy && await == ANone && phase == PPost else st == Fail && await == ADone)
      ensures evals == old(evals) + 1 <= p.maxLinesearch + 1
    {
      hide Lawful, ParamsInRange, Settled, InPhase, Searching, Evaluated, PostTrial;
      Evaluate(C(), b, ls, lo, evals, f);
      EvalsBounded(C(), PostTrial(k, b), ls, lo, evals + 1, f);
      Count(f);
      if !vecOk {
        st := Failed(VecFailed);
        return;
      }
      st := PostPhase();
    }

    method Count(f: real)
      modifies `await, `fx, `evals
      ensures await == ANone && fx == f && evals == old(evals) + 1
    {
      await, fx := ANone, f;
      evals := evals + 1;
    }

    method PostPhase() returns (st: Status)
      requires Ready() && await == ANone && Evaluated(C(), PostTrial(k, b), ls, lo, evals, fx)
      modifies `b, `phase
      ensures Valid() && st == Busy && phase == PPost
    {
      hide Lawful, ParamsInRange, Settled, InPhase, Searching, Evaluated, PostTrial;
      b := PostTrial(k, b);
      phase := PPost;
      InPost(C(), b, ls, lo, evals, fx, accepted);
      return Busy;
    }

    static lemma InPost(c: Setting<V, M>, b: Bufs<V, M>, ls: Ls, lo: LoAt, evals: nat, fx: real, accepted: real)
      requires Evaluated(c, b, ls, lo, evals, fx)
      ensures InPhase(c, PPost, b, ls, lo, evals, fx, accepted)
    {
      hide Evaluated;
    }

    static lemma EvalsBounded(c: Setting<V, M>, b: Bufs<V, M>, ls: Ls, lo: LoAt, evals: nat, fx: real)
      requires Evaluated(c, b, ls, lo, evals, fx)
      ensures evals <= c.r.p.maxLinesearch + 1 && Current(c.k, b) && b.pg == c.k.pgInf(b.x, b.g)
    {
      hide Resume, Search, EnvIn, LoHeld, LoHolds, Ahead, PointAt;
    }

    /** The initial point's quantities are read: done already, or the first direction. */
    method FirstDirection(readOk: bool, runOk: bool) returns (st: Status)
      requires Valid() && await == ANone && phase == PX0
      modifies `pg, `xnorm, `iterations, `reason, `await, `phase, `err, `b
      ensures Advanced(st)
    {
      hide Lawful, ParamsInRange, Settled, InPhase, Searching, Current, Poised, FirstDirected, AtCauchy, WasReset;
      FromPhase(C(), phase, b, ls, lo, evals, fx, accepted);
      if !readOk {
        st := Failed(VecFailed);
        return;
      }
      pg, xnorm, iterations := b.pg, k.root(Max(0.0, b.xx)), 1;
      if pg <= p.epsilon || pg <= p.epsilonRel * xnorm {
        st := GradientTest();
      } else {
        st := Prepare(runOk);
      }
    }

    method GradientTest() returns (st: Status)
      requires Lawful(k) && Current(k, b) && pg == k.pgInf(b.x, b.g)
      requires FlatGradient(p, pg, k.root(Max(0.0, k.dot(b.x, b.x))))
      modifies `reason, `await
      ensures Advanced(st)
    {
      hide Lawful, ParamsInRange, Settled, InPhase, Searching, Current;
      reason, await := Gradient, ADone;
      return Converged;
    }

    method Prepare(runOk: bool) returns (st: Status)
      requires Ready() && Current(k, b) && EndsAt(p, trail, k.f(b.x), fx)
      requires AtCauchy(k, b.x, b.g, b.mem, b.xcp, b.dcp) && b.nn == k.dot(b.dcp, b.dcp) && WasReset(k, b.mem)
      modifies `await, `phase, `b, `err
      ensures Advanced(st)
    {
      hide Lawful, ParamsInRange, Settled, InPhase, Searching, Current, Poised, FirstDirected, AtCauchy, FirstAim, WasReset;
      if !runOk {
        st := Failed(VecFailed);
        return;
      }
      FirstIsPoised(k, b);
      b := FirstDirected(k, b);
      await, phase := ANone, PPrep;
      InPoised(C(), PPrep, b, ls, lo, evals, fx, accepted);
      return Busy;
    }

    static lemma FirstIsPoised(k: Kernels<V, M>, b: Bufs<V, M>)
      requires Current(k, b) && AtCauchy(k, b.x, b.g, b.mem, b.xcp, b.dcp) && b.nn == k.dot(b.dcp, b.dcp)
      ensures var b' := FirstDirected(k, b);
              Poised(k, b') && b'.x == b.x && b'.mem == b.mem && FirstAim(k, b'.x, b'.g, b'.mem, b'.xcp, b'.dcp, b'.d)
    {
    }

    /** What a completed phase may lead to. */
    ghost predicate Advanced(st: Status)
      reads this
    {
      && Valid()
      && (st == NeedEval <==> await == AEval0) && (st == Try <==> await == ATrial) && (st == Accept <==> await == AAccept)
      && (st == Converged ==> await == ADone && Current(k, b) && pg == k.pgInf(b.x, b.g))
      && (st == Converged && reason == Gradient ==> FlatGradient(p, pg, k.root(Max(0.0, k.dot(b.x, b.x)))))
      && (st == Converged && reason != Gradient ==> Settled(C(), b, accepted, evals, fx))
      && (st == Accept ==> |trail| > 0 && Improves(C(), b))
      && (st == Busy ==> await == ANone) && (st == Fail ==> await == ADone)
    }

    /** A search phase has completed: its outcome, as a phase's outcome. */
    method NextSearched(readOk: bool, runOk: bool) returns (st: Status)
      requires Valid() && await == ANone && (phase == PPost || phase == PRestore)
      modifies this
      ensures Advanced(st) && trail == old(trail)
    {
      hide Lawful, ParamsInRange, Settled, Searching, Evaluated, Current, Search, EnvIn, InPhase;
      FromPhase(C(), phase, b, ls, lo, evals, fx, accepted);
      if !readOk {
        st := Failed(VecFailed);
        return;
      }
      if phase == PPost {
        st := ReadPost(runOk);
      } else {
        st := ReadRestore();
      }
    }

    method ReadPost(runOk: bool) returns (st: Status)
      requires Ready() && Evaluated(C(), b, ls, lo, evals, fx)
      modifies this
      ensures Advanced(st) && trail == old(trail)
    {
      hide Lawful, ParamsInRange, Settled, Searching, Evaluated, Current, Search, EnvIn, InPhase, Improves;
      pg, xnorm, dg := b.pg, k.root(Max(0.0, b.xx)), b.dg;
      st := AfterEval(runOk);
      SteppedAdvances(st, runOk);
    }

    method ReadRestore() returns (st: Status)
      requires Ready() && Settled(C(), b, accepted, evals, fx)
      modifies this
      ensures Advanced(st) && trail == old(trail)
    {
      hide Lawful, ParamsInRange, Settled, Searching, Evaluated, Current, Search, EnvIn, InPhase, Improves;
      pg, xnorm := b.pg, k.root(Max(0.0, b.xx));
      st := AcceptHere(true);
      SteppedAdvances(st, true);
    }

    lemma SteppedAdvances(st: Status, vecOk: bool)
      requires Stepped(st, vecOk)
      ensures Advanced(st)
    {
      hide Lawful, ParamsInRange, Settled, Searching, Evaluated, Current, Search, EnvIn, InPhase, Improves;
      if st == Converged { SettledIsCurrent(C(), b, accepted, evals, fx); }
      if st == Accept { SettledImproves(C(), b, accepted, evals, fx); }
    }

    static lemma SettledIsCurrent(c: Setting<V, M>, b: Bufs<V, M>, at: real, evals: nat, fx: real)
      requires Settled(c, b, at, evals, fx)
      ensures Coherent(c.k, b) && Current(c.k, b) && b.pg == c.k.pgInf(b.x, b.g) && b.xx == c.k.dot(b.x, b.x)
    {
      hide Search, EnvIn, PointAt;
    }

    /** A direction phase has completed. */
    method NextDirected(readOk: bool, runOk: bool) returns (st: Status)
      requires Valid() && await == ANone && (phase == PPrep || phase == PDir || phase == PDirReset || phase == PPatho)
      modifies this
      ensures Advanced(st) && trail == old(trail)
      ensures st == Busy && old(phase) == PDir && !old(b).pivotsOk ==> phase == PDirReset && b.mem == k.reset(old(b).mem)
      ensures st == Busy && !(old(phase) == PDir && !old(b).pivotsOk) ==>
                || (phase == PTrial && b.d == old(b).d && b.xp == old(b).x)
                || (phase == PPatho && old(phase) != PPatho && b.mem == k.reset(old(b).mem) &&
                    b.d == k.combine(k.cauchy(old(b).mem, b.x, b.g), b.x, 1.0, -1.0))
    {
      hide *;
      DirectionReady();
      ReadyIsLawful();
      if !readOk {
        st := Failed(VecFailed);
        FailedAdvances(st);
        return;
      }
      if phase == PDir && !b.pivotsOk {
        PoisedIsCurrent(k, b);
        st := Direction(true, runOk);
        StartedAdvances(st);
      } else {
        st := LineSearchStart(phase == PPatho, runOk);
        StartedAdvances(st);
      }
    }

    /** What a completed direction phase leaves. */
    lemma DirectionReady()
      requires Valid() && await == ANone && (phase == PPrep || phase == PDir || phase == PDirReset || phase == PPatho)
      ensures Ready() && Poised(k, b) && EndsAt(p, trail, k.f(b.x), fx)
      ensures Aimed(k, p.maxSubmin, b.x, b.g, b.mem, b.xcp, b.dcp, b.d)
      ensures phase != PPatho ==> AtCauchy(k, b.x, b.g, b.mem, b.xcp, b.dcp)
    {
      hide Lawful, ParamsInRange, Settled, Searching, Evaluated, Poised, InPhase, Aimed, AtCauchy, EndsAt;
      FromPhase(C(), phase, b, ls, lo, evals, fx, accepted);
    }

    lemma FailedAdvances(st: Status)
      requires Valid() && st == Fail && await == ADone
      ensures Advanced(st)
    {
      hide Valid;
    }

    lemma StartedAdvances(st: Status)
      requires Valid() && ((st == Busy && await == ANone) || (st == Fail && await == ADone))
      ensures Advanced(st)
    {
      hide Valid;
    }

    static lemma PoisedIsCurrent(k: Kernels<V, M>, b: Bufs<V, M>)
      requires Poised(k, b)
      ensures Current(k, b)
    {
    }

    /** The iterate is accepted: the next direction. */
    method NextAccepted(vecOk: bool) returns (st: Status)
      requires Valid() && await == AAccept
      modifies this
      ensures Advanced(st) && trail == old(trail) + [Accepted(k.f(old(b).x), old(fx), old(Clean(C(), b)))]
      ensures st == Busy ==>
                && phase == PDir && b.x == old(b).x && b.g == old(b).g
                && b.mem == k.store(k.add(old(b).mem, old(b).dots), old(b).sv, old(b).yv)
                && b.xcp == k.cauchy(b.mem, b.x, b.g) && b.d == k.subspace(b.mem, b.x, b.g, b.xcp, p.maxSubmin)
    {
      hide Lawful, ParamsInRange, Settled, Searching, Evaluated, Poised, Directed, Coherent;
      SettledIsCurrent(C(), b, accepted, evals, fx);
      TrailGrows(C(), b, accepted, evals, fx);
      trail := trail + [Accepted(k.f(b.x), fx, Clean(C(), b))];
      st := Direction(false, vecOk);
    }

    /** The point in x is the caller's to evaluate. */
    method Ask(what: Await) returns (st: Status)
      requires Valid() && await == ANone && ((what == AEval0 && phase == PInit) || (what == ATrial && phase == PTrial))
      modifies `phase, `await
      ensures Advanced(st)
    {
      hide Lawful, ParamsInRange, Settled, Searching, Evaluated, Poised, Current, Improves, EndsAt;
      phase, await := PNone, what;
      assert Valid();
      return if what == AEval0 then NeedEval else Try;
    }

    /** next(): f is the caller's value of the point it was asked to evaluate; readOk and
        runOk say whether the vector backend's read and run succeed. */
    method Next(f: real, readOk: bool, runOk: bool) returns (st: Status)
      requires Valid()
      requires await == AEval0 || await == ATrial ==> b.g == k.grad(b.x) && f == k.f(b.x)
      modifies this
      ensures old(trail) <= trail
      ensures old(await) == AAccept ==> trail == old(trail) + [Accepted(k.f(old(b).x), old(fx), old(Clean(C(), b)))]
      ensures Valid() && (old(await) != ADone ==> Advanced(st))
      ensures old(await) == ADone ==> st == if old(err) == Nothing then Converged else Fail
      ensures old(await) == AAccept && st == Busy ==>
                && phase == PDir && b.x == old(b).x && b.g == old(b).g
                && b.mem == k.store(k.add(old(b).mem, old(b).dots), old(b).sv, old(b).yv)
                && b.xcp == k.cauchy(b.mem, b.x, b.g) && b.d == k.subspace(b.mem, b.x, b.g, b.xcp, p.maxSubmin)
    {
      hide Aimed, FlatGradient, Coherent, Lawful, ParamsInRange, Settled, Searching, Evaluated, Poised, Post, PostTrial, Moved, Restored, AtX0, FirstDirected, Pathological, Directed, Begun;
      match await {
        case ADone => st := if err == Nothing then Converged else Fail;
        case AEval0 => st := NextX0(f, runOk);
        case ATrial => st := NextEvaluated(f, runOk);
        case AAccept => st := NextAccepted(runOk);
        case ANone =>
          match phase {
            case PNone => st := Failed(NotStarted);
            case PInit => st := Ask(AEval0);
            case PX0 => st := FirstDirection(readOk, runOk);
            case PTrial => st := Ask(ATrial);
            case PPost => st := NextSearched(readOk, runOk);
            case PRestore => st := NextSearched(readOk, runOk);
            case _ => st := NextDirected(readOk, runOk);
          }
      }
    }
  }

  lemma PoisedDescends<V(!new), M(!new)>(c: Setting<V, M>, b: Bufs<V, M>)
    requires Lawful(c.k) && c.r.root == c.k.root && ParamsInRange(c.r.p)
    requires Poised(c.k, b) && c.r.line.dgInit == b.dg < 0.0 && c.r.line.stepMax > 0.0
    requires EndsAt(c.r.p, c.trail, c.k.f(b.x), c.r.line.fxInit)
    requires Aimed(c.k, c.r.p.maxSubmin, b.x, b.g, b.mem, b.xcp, b.dcp, b.d)
    ensures Descends(c, b)
  {
    hide Aimed;
  }

  /** What an evaluated trial resumes with. */
  lemma Resumes<V(!new), M(!new)>(c: Setting<V, M>, b: Bufs<V, M>, ls: Ls, lo: LoAt, evals: nat, fx: real)
    requires Evaluated(c, b, ls, lo, evals, fx)
    ensures Resume(EnvIn(c, b), ls) ==
            if StrongWolfe(c.r, ls.step, fx, b.dg) || (ls.iter >= 0 && ls.step >= c.r.line.stepMax && TakesLo(c.r, ls, fx)) then Stop(ls.step, fx)
            else Loop(EnvIn(c, b), ls.(iter := ls.iter + 1), fx, b.dg)
  {
    EnvValues(c, b, ls.step);
    hide EnvIn, StrongWolfe, TakesLo, Loop, PointAt, LoHolds, LoHeld, Ahead, Search, Post, PostTrial, Moved, Restored, AtX0, FirstDirected, Pathological, Directed, Begun;
  }

  lemma LastPass<V(!new), M(!new)>(c: Setting<V, M>, b: Bufs<V, M>, was: Ls, ls: Ls, lo: LoAt, evals: nat, fx: real)
    requires Evaluated(c, b, was, lo, evals, fx)
    requires ls == was.(iter := was.iter + 1) && ls.iter >= c.r.p.maxLinesearch
    requires Resume(EnvIn(c, b), was) == Loop(EnvIn(c, b), ls, fx, b.dg)
    ensures TakesLo(c.r, ls, fx) == TakesLo(c.r, was, fx)
    ensures TakesLo(c.r, ls, fx) ==> Resume(EnvIn(c, b), was) == Stop(was.step, fx)
    ensures !TakesLo(c.r, ls, fx) && ls.iLo <= 0.0 ==> Search(EnvIn(c, b)) == Broken
  {
    EnvValues(c, b, was.step);
    NarrowIgnoresIter(c.r, was, ls, fx, b.dg);
    hide EnvIn, StrongWolfe, TakesLo, PointAt, LoHolds, LoHeld, Ahead, Search, Resume, Post, PostTrial, Moved, Restored, AtX0, FirstDirected, Pathological, Directed, Begun;
  }

  lemma EvaluatedResumes<V(!new), M(!new)>(c: Setting<V, M>, b: Bufs<V, M>, ls: Ls, lo: LoAt, evals: nat, fx: real)
    requires Evaluated(c, b, ls, lo, evals, fx)
    ensures Resume(EnvIn(c, b), ls) == Search(EnvIn(c, b))
  {
    hide Resume, Search, EnvIn, Coherent, LoHeld, LoHolds, Ahead, PointAt, Post, PostTrial, Moved, Restored, AtX0, FirstDirected, Pathological, Directed, Begun;
  }

  lemma RefusedIsBroken<V, M>(c: Setting<V, M>, b: Bufs<V, M>, ls: Ls, fx: real)
    requires ls.iter < c.r.p.maxLinesearch && (Body(c.r, ls, fx, b.dg).Refuse? || Body(c.r, ls, fx, b.dg).Lost?)
    ensures Loop(EnvIn(c, b), ls, fx, b.dg) == Broken
  {
    hide EnvIn, Body, Post, PostTrial, Moved, Restored, AtX0, FirstDirected, Pathological, Directed, Begun;
    EnvValues(c, b, 0.0);
  }

  lemma GradientApart<V(!new), M(!new)>(c: Setting<V, M>, b: Bufs<V, M>, b': Bufs<V, M>, ls: Ls, lo: LoAt, evals: nat)
    requires Searching(c, b, ls, lo, evals) && b' == b.(g := b'.g)
    ensures Searching(c, b', ls, lo, evals)
  {
    SameEnv(c, b, b');
    hide Resume, Search, LoHolds, Ahead, EnvIn, PointAt, Post, PostTrial, Moved, Restored, AtX0, FirstDirected, Pathological, Directed, Begun;
  }
}
