/** jobs, drape_sim, drape_backward and drape_session: stages over frames, none of which
    waits for the GPU in the frame that gave it the work. */
module FrameSchedule {

  // --- the device's counters ----------------------------------------------------------------------

  /** The solver's pending flag and the device's submit and sync bookkeeping. */
  datatype Gpu = Gpu(pending: bool, submitFrame: int, sameFrameSyncs: nat, submits: nat, syncs: nat)

  function Synced(g: Gpu, frame: int): Gpu {
    g.(pending := false, syncs := g.syncs + 1, sameFrameSyncs := g.sameFrameSyncs + if frame == g.submitFrame then 1 else 0)
  }

  function Submitted(g: Gpu, frame: int): Gpu {
    g.(pending := true, submitFrame := frame, submits := g.submits + 1)
  }

  /** Nothing is in flight that this frame submitted. */
  predicate Clear(g: Gpu, frame: int) {
    g.pending ==> g.submitFrame < frame
  }

  /** What a stretch of work in one frame may do: at most one submit, nothing waited for
      after it, no sync in its submit's frame. */
  ghost predicate Orderly(g: Gpu, g': Gpu, frame: int) {
    && g'.sameFrameSyncs == g.sameFrameSyncs
    && (if g'.submits == g.submits then Clear(g', frame) && (g'.pending ==> g == g')
        else g'.submits == g.submits + 1 && g'.pending && g'.submitFrame == frame)
  }

  // --- stages ---------------------------------------------------------------------------------------

  datatype Mode = Native | Step | Unrolled

  datatype Kind = StartForward(steps: int) | Forward | StartFit(steps: int) | Fit | StartBackward(mode: Mode) | Backward | Host(reading: bool, launching: bool)

  datatype Stage = Stage(kind: Kind, ends: bool)

  datatype Config = Config(iters: int, al: bool, selfCollision: bool, selfPasses: int, attachments: bool, fitSettle: nat, truncate: int)

  datatype SimPhase = Idle | Solved | Scanned
  datatype BwdState = Init | NativeSubmit | NativeRead | RcBegin | RcSnap | RcBwdRead | Done

  class Session {
    const cfg: Config
    /** Answers the data decide: does a scan push vertices, does a fit refresh or converge. */
    const says: nat -> bool

    var asked: nat
    var gpu: Gpu
    var frame: int
    var simPhase: SimPhase
    var pass: int
    var steps: nat
    var fwdRemaining: int
    var fwdAsked: int
    var fwdFrom: nat
    var fitSettling: bool
    var fitConverged: bool
    var bwd: BwdState
    var mode: Mode
    var idx: int
    var it: int
    var stepsBack: int
    /** Submits made for the step being swept. */
    ghost var rounds: nat
    var queue: seq<Stage>
    var inserts: seq<Stage>
    var running: bool
    var done: nat

    constructor (cfg: Config, says: nat -> bool)
      ensures gpu == Gpu(false, -1, 0, 0, 0) && queue == [] && inserts == [] && !running && frame == -1
      ensures simPhase == Idle && bwd == Done && steps == 0
      ensures AtRest()
    {
      this.cfg, this.says := cfg, says;
      asked, frame := 0, -1;
      gpu := Gpu(false, -1, 0, 0, 0);
      simPhase, pass, steps, fwdRemaining, fwdAsked, fwdFrom := Idle, 0, 0, 0, 0, 0;
      fitSettling, fitConverged := false, false;
      bwd, mode, idx, it, stepsBack, rounds := Done, Native, 0, 0, 0, 0;
      queue, inserts, running, done := [], [], false, 0;
    }

    // --- the solver's calls, as the device sees them ------------------------------------------------

    /** An upload, an update or a readback: waits out a submit in flight. */
    method Touch()
      requires Clear(gpu, frame)
      modifies `gpu
      ensures Orderly(old(gpu), gpu, frame) && gpu.submits == old(gpu).submits && !gpu.pending
      ensures gpu.syncs == old(gpu).syncs + if old(gpu).pending then 1 else 0
    {
      if gpu.pending { gpu := Synced(gpu, frame); }
    }

    /** A run, a scan or a backward: waits out a submit in flight, then submits. */
    method Launch()
      requires Clear(gpu, frame)
      modifies `gpu
      ensures Orderly(old(gpu), gpu, frame) && gpu.submits == old(gpu).submits + 1
    {
      Touch();
      gpu := Submitted(gpu, frame);
    }

    method Ask() returns (yes: bool)
      modifies `asked
      ensures asked == old(asked) + 1 && yes == says(old(asked))
    {
      yes := says(asked);
      asked := asked + 1;
    }

    // --- DrapeSim: one step in phases -----------------------------------------------------------------

    /** The step's predictor and the solve, submitted. */
    method Begin(fitting: bool)
      requires Clear(gpu, frame)
      modifies `gpu, `simPhase, `asked
      ensures Orderly(old(gpu), gpu, frame) && gpu.submits == old(gpu).submits + 1 && simPhase == Solved
    {
      if fitting {
        var refresh := Ask();
        if refresh { Touch(); }
      }
      Touch();
      if cfg.attachments { Touch(); }
      Launch();
      simPhase := Solved;
    }

    /** The solve read back; a scan submitted, or the step finished. */
    method ReadSolved() returns (complete: bool)
      requires Clear(gpu, frame)
      modifies `gpu, `simPhase, `pass, `steps
      ensures Orderly(old(gpu), gpu, frame) && complete == !cfg.selfCollision && (complete ==> !gpu.pending)
      ensures gpu.submits == old(gpu).submits + if complete then 0 else 1
      ensures simPhase == if complete then Idle else Scanned
      ensures steps == old(steps) + if complete then 1 else 0
    {
      Touch();
      if cfg.selfCollision {
        pass := 0;
        SubmitScan();
        simPhase := Scanned;
        return false;
      }
      simPhase, steps := Idle, steps + 1;
      return true;
    }

    method SubmitScan()
      requires Clear(gpu, frame)
      modifies `gpu
      ensures Orderly(old(gpu), gpu, frame) && gpu.submits == old(gpu).submits + 1
    {
      Touch();
      Launch();
    }

    /** A scan read back; another one while it pushes and passes are left. */
    method ReadScanned() returns (complete: bool)
      requires Clear(gpu, frame)
      modifies `gpu, `simPhase, `pass, `asked, `steps
      ensures Orderly(old(gpu), gpu, frame) && pass == old(pass) + 1
      ensures complete <==> !(says(old(asked)) && pass < cfg.selfPasses)
      ensures complete ==> !gpu.pending
      ensures gpu.submits == old(gpu).submits + if complete then 0 else 1
      ensures simPhase == if complete then Idle else old(simPhase)
      ensures steps == old(steps) + if complete then 1 else 0
    {
      Touch();
      var pushed := Ask();
      pass := pass + 1;
      if pushed && pass < cfg.selfPasses {
        SubmitScan();
        return false;
      }
      simPhase, steps := Idle, steps + 1;
      return true;
    }

    /** One phase of the step; a completed step has nothing in flight. */
    method Advance(fitting: bool) returns (complete: bool)
      requires Clear(gpu, frame)
      modifies `gpu, `simPhase, `pass, `asked, `steps
      ensures Orderly(old(gpu), gpu, frame)
      ensures complete ==> simPhase == Idle && gpu.submits == old(gpu).submits && !gpu.pending
      ensures !complete ==> gpu.submits == old(gpu).submits + 1
      ensures steps == old(steps) + if complete then 1 else 0
    {
      match simPhase {
        case Idle => Begin(fitting); complete := false;
        case Solved => complete := ReadSolved();
        case Scanned => complete := ReadScanned();
      }
    }

    // --- the forward and the fit, stage by stage -------------------------------------------------------

    /** Queues a stage: from inside a running one, after it and before the rest. */
    method Next(stage: Stage)
      modifies `queue, `inserts
      ensures running ==> inserts == old(inserts) + [stage] && queue == old(queue)
      ensures !running ==> queue == [stage] + old(queue) && inserts == old(inserts)
    {
      if !running {
        queue := [stage] + queue;
      } else {
        inserts := inserts + [stage];
      }
    }

    method Push(stage: Stage)
      modifies `queue
      ensures queue == old(queue) + [stage]
    {
      queue := queue + [stage];
    }

    /** The steps made and those left are the steps asked for. */
    predicate Counting()
      reads this`fwdRemaining, this`fwdAsked, this`fwdFrom, this`steps
    {
      fwdFrom <= steps && fwdRemaining + (steps - fwdFrom) == fwdAsked
    }

    /** One phase of a forward; when it is over, it has made the steps it was asked for. */
    method ForwardStage()
      requires Clear(gpu, frame) && running && Counting() && (fwdRemaining > 0 || steps == fwdFrom)
      modifies `gpu, `simPhase, `pass, `asked, `steps, `fwdRemaining, `queue, `inserts
      ensures Orderly(old(gpu), gpu, frame) && queue == old(queue) && Counting()
      ensures inserts == old(inserts) + if fwdRemaining > 0 then [Stage(Forward, false)] else []
      ensures fwdRemaining == old(fwdRemaining) - (steps - old(steps))
      ensures fwdRemaining <= 0 ==> steps == fwdFrom + if fwdAsked > 0 then fwdAsked else 0
    {
      if fwdRemaining > 0 {
        var complete := Advance(false);
        if complete { fwdRemaining := fwdRemaining - 1; }
      }
      if fwdRemaining > 0 { Next(Stage(Forward, false)); }
    }

    /** A fit that has converged is settling, when there is a settle to do. */
    predicate FitOpen()
      reads this`fitConverged, this`fitSettling
    {
      cfg.fitSettle > 0 && !fitSettling ==> !fitConverged
    }

    /** A fit: steps that may refresh their targets, then a settle with the pull off. Its
        stiffness uploads come only after a stage that launched nothing. A step that
        converges ends the fit and starts the settle exactly when there is one; without
        one the count just goes on falling with the steps. */
    method FitStage()
      requires Clear(gpu, frame) && running && FitOpen()
      modifies `gpu, `simPhase, `pass, `asked, `steps, `fwdRemaining, `fitSettling, `fitConverged, `queue, `inserts
      ensures Orderly(old(gpu), gpu, frame) && queue == old(queue) && (fwdRemaining > 0 ==> FitOpen())
      ensures inserts == old(inserts) + if fwdRemaining > 0 then [Stage(Fit, false)] else []
      ensures fitConverged <==> old(fitConverged) || (steps > old(steps) && !old(fitSettling) && asked > 0 && says(asked - 1))
      ensures var left := old(fwdRemaining) - (steps - old(steps));
              var settles := !old(fitSettling) && cfg.fitSettle > 0 && (fitConverged || left <= 0);
              && fwdRemaining == (if settles then cfg.fitSettle else left)
              && (fitSettling <==> settles || (old(fitSettling) && left > 0))
      ensures !old(fitSettling) && fitConverged ==> (fitSettling <==> cfg.fitSettle > 0)
    {
      FitStep();
      StartSettle();
      if fwdRemaining > 0 {
        Next(Stage(Fit, false));
        return;
      }
      if fitSettling {
        if cfg.attachments { Touch(); }
        fitSettling := false;
      }
    }

    /** One phase of a step of the fit. Only the steps before the settle can converge. */
    method FitStep()
      requires Clear(gpu, frame) && running && FitOpen()
      modifies `gpu, `simPhase, `pass, `asked, `steps, `fwdRemaining, `fitConverged
      ensures Orderly(old(gpu), gpu, frame)
      ensures fwdRemaining == old(fwdRemaining) - (steps - old(steps)) && steps <= old(steps) + 1
      ensures SettleDue() || fwdRemaining <= 0 ==> gpu.submits == old(gpu).submits
      ensures fitConverged <==> old(fitConverged) || (steps > old(steps) && !old(fitSettling) && asked > 0 && says(asked - 1))
    {
      if fwdRemaining > 0 {
        var complete := Advance(!fitSettling);
        if complete {
          fwdRemaining := fwdRemaining - 1;
          if !fitSettling {
            var converged := Ask();
            if converged { fitConverged := true; }
          }
        }
      }
    }

    predicate SettleDue()
      reads this
    {
      (fitConverged || fwdRemaining <= 0) && !fitSettling && cfg.fitSettle > 0
    }

    /** The settle, once the fit is over: the pull off, and its own count of steps. */
    method StartSettle()
      requires SettleDue() ==> Clear(gpu, frame)
      modifies `gpu, `fwdRemaining, `fitSettling
      ensures if old(SettleDue()) then fitSettling && fwdRemaining == cfg.fitSettle else fitSettling == old(fitSettling) && fwdRemaining == old(fwdRemaining)
      ensures if old(SettleDue()) then Orderly(old(gpu), gpu, frame) && gpu.submits == old(gpu).submits else gpu == old(gpu)
    {
      if SettleDue() {
        fitSettling := true;
        if cfg.attachments { Touch(); }
        fwdRemaining := cfg.fitSettle;
      }
    }

    // --- DrapeBackward ---------------------------------------------------------------------------------------

    /** The steps a sweep goes back over: all of them, or as many as it is cut to. */
    function SweepLength(): int
      reads this`steps
    {
      if 0 < cfg.truncate < steps then cfg.truncate else steps
    }

    /** In the middle of a sweep: the steps behind and those ahead are all there are, and an
        unrolled step runs forward through its iterations before it comes back through them. */
    ghost predicate Sweeping()
      reads this`bwd, this`mode, this`idx, this`it, this`stepsBack, this`steps, this`rounds
    {
      && stepsBack >= 0 && idx >= 1 && stepsBack + idx == steps && (cfg.truncate > 0 ==> stepsBack < cfg.truncate)
      && (bwd == NativeRead || bwd == RcSnap || bwd == RcBwdRead) && (bwd == NativeRead <==> mode == Native)
      && (bwd == RcSnap ==> mode == Unrolled && 0 <= it < cfg.iters - 1 && rounds == it + 1)
      && (bwd == RcBwdRead && mode == Step ==> rounds == 1)
      && (bwd == RcBwdRead && mode == Unrolled && cfg.iters >= 1 ==> 0 <= it < cfg.iters && rounds == 2 * cfg.iters - 1 - it)
    }

    /** Between the steps of a sweep. */
    predicate BetweenSteps()
      reads this`idx, this`stepsBack, this`steps
    {
      stepsBack >= 0 && idx >= 0 && stepsBack + idx == steps && (cfg.truncate > 0 ==> stepsBack <= cfg.truncate)
    }

    method StartBwd(m: Mode)
      modifies `bwd, `mode, `stepsBack
      ensures bwd == Init && mode == m && stepsBack == 0
    {
      bwd, mode, stepsBack := Init, m, 0;
    }

    /** The reverse sweep is over. */
    predicate SweepOver()
      reads this`idx, this`stepsBack
    {
      idx < 1 || (cfg.truncate > 0 && stepsBack >= cfg.truncate)
    }

    method InitBwd()
      requires Clear(gpu, frame) && stepsBack == 0
      modifies `gpu, `bwd, `idx, `it, `stepsBack, `rounds
      ensures Orderly(old(gpu), gpu, frame) && (bwd != Done ==> gpu.submits == old(gpu).submits + 1)
      ensures bwd == Done <==> steps == 0 || simPhase != Idle || (mode != Native && cfg.al)
      ensures bwd == Done ==> stepsBack == 0 && gpu == old(gpu)
      ensures bwd != Done ==> Sweeping()
    {
      if steps == 0 || simPhase != Idle || (mode != Native && cfg.al) {
        bwd := Done;
        return;
      }
      idx := steps;
      if mode == Native {
        NativeLaunch();
      } else {
        RecomputeBegin();
      }
    }

    method NativeLaunch()
      requires Clear(gpu, frame) && BetweenSteps() && mode == Native
      modifies `gpu, `bwd
      ensures Orderly(old(gpu), gpu, frame)
      ensures if SweepOver() then bwd == Done && gpu == old(gpu) else bwd == NativeRead && gpu.submits == old(gpu).submits + 1
      ensures if bwd == Done then stepsBack == SweepLength() else Sweeping()
    {
      if SweepOver() {
        bwd := Done;
        return;
      }
      Launch();
      bwd := NativeRead;
    }

    method NativeCollect()
      requires Clear(gpu, frame) && Sweeping() && bwd == NativeRead
      modifies `gpu, `bwd, `idx, `stepsBack
      ensures Orderly(old(gpu), gpu, frame) && stepsBack == old(stepsBack) + 1 && idx == old(idx) - 1
      ensures if SweepOver() then bwd == Done && !gpu.pending else bwd == NativeRead && gpu.submits == old(gpu).submits + 1
      ensures if bwd == Done then stepsBack == SweepLength() else Sweeping()
    {
      Touch();
      stepsBack, idx := stepsBack + 1, idx - 1;
      NativeLaunch();
    }

    method RecomputeBegin()
      requires Clear(gpu, frame) && BetweenSteps() && mode != Native
      modifies `gpu, `bwd, `it, `rounds
      ensures Orderly(old(gpu), gpu, frame)
      ensures if bwd == Done then stepsBack == SweepLength() else Sweeping()
      ensures if SweepOver() then bwd == Done && gpu == old(gpu) else gpu.submits == old(gpu).submits + 1
      ensures !SweepOver() ==> bwd == if mode == Unrolled && cfg.iters > 1 then RcSnap else RcBwdRead
      ensures !SweepOver() && mode == Unrolled ==> it == if cfg.iters > 1 then 0 else cfg.iters - 1
      ensures if SweepOver() then rounds == old(rounds) else rounds == 1
      ensures SweepOver() || mode == Step ==> it == old(it)
    {
      if SweepOver() {
        bwd := Done;
        return;
      }
      rounds := 1;
      Touch();
      if cfg.attachments { Touch(); }
      if mode != Unrolled {
        Launch();
        bwd := RcBwdRead;
        return;
      }
      it := 0;
      if cfg.iters > 1 {
        Launch();
        bwd := RcSnap;
        return;
      }
      StartUnrolled();
    }

    method StartUnrolled()
      requires Clear(gpu, frame)
      modifies `gpu, `bwd, `it
      ensures Orderly(old(gpu), gpu, frame) && gpu.submits == old(gpu).submits + 1 && bwd == RcBwdRead && it == cfg.iters - 1
    {
      it := cfg.iters - 1;
      SubmitIteration();
    }

    method SubmitIteration()
      requires Clear(gpu, frame)
      modifies `gpu, `bwd
      ensures Orderly(old(gpu), gpu, frame) && gpu.submits == old(gpu).submits + 1 && bwd == RcBwdRead
    {
      Touch();
      Launch();
      bwd := RcBwdRead;
    }

    /** A snapshot read back; another forward iteration, or the unrolled sweep begins. */
    method Snapshot()
      requires Clear(gpu, frame) && bwd == RcSnap && Sweeping()
      modifies `gpu, `bwd, `it, `rounds
      ensures Orderly(old(gpu), gpu, frame) && gpu.submits == old(gpu).submits + 1 && Sweeping() && rounds == old(rounds) + 1
      ensures if old(it) + 2 < cfg.iters then bwd == RcSnap && it == old(it) + 1 else bwd == RcBwdRead && it == cfg.iters - 1
    {
      Touch();
      it := it + 1;
      rounds := rounds + 1;
      if it + 1 < cfg.iters {
        Launch();
        return;
      }
      StartUnrolled();
    }

    /** A backward run read back: the iteration before it, when an unrolled step has one left;
        else the step is over, after 2 * iters - 1 submits if it was unrolled, and the step
        before it begins or the sweep is done. */
    method RecomputeCollect()
      requires Clear(gpu, frame) && bwd == RcBwdRead && Sweeping()
      modifies `gpu, `bwd, `it, `idx, `stepsBack, `rounds
      ensures Orderly(old(gpu), gpu, frame)
      ensures if bwd == Done then !gpu.pending else gpu.submits == old(gpu).submits + 1
      ensures if bwd == Done then stepsBack == SweepLength() else Sweeping()
      ensures mode == Unrolled && old(it) > 0 ==>
                && bwd == RcBwdRead && it == old(it) - 1 && rounds == old(rounds) + 1
                && stepsBack == old(stepsBack) && idx == old(idx)
      ensures !(mode == Unrolled && old(it) > 0) ==>
                && stepsBack == old(stepsBack) + 1 && idx == old(idx) - 1
                && (bwd == Done <==> SweepOver()) && (bwd != Done ==> rounds == 1)
                && (bwd != Done ==> bwd == if mode == Unrolled && cfg.iters > 1 then RcSnap else RcBwdRead)
      ensures !(mode == Unrolled && old(it) > 0) && cfg.iters >= 1 ==> old(rounds) == if mode == Unrolled then 2 * cfg.iters - 1 else 1
    {
      Touch();
      if mode == Unrolled && it > 0 {
        it := it - 1;
        rounds := rounds + 1;
        SubmitIteration();
        return;
      }
      stepsBack, idx := stepsBack + 1, idx - 1;
      RecomputeBegin();
    }

    /** One phase of the backward. */
    method AdvanceBwd() returns (complete: bool)
      requires Clear(gpu, frame) && BwdOk()
      modifies `gpu, `bwd, `idx, `it, `stepsBack, `rounds
      ensures Orderly(old(gpu), gpu, frame) && complete == (bwd == Done) && BwdOk() && bwd != Init
      ensures !complete ==> gpu.submits == old(gpu).submits + 1 && Sweeping()
      ensures complete && old(bwd) != Done && old(bwd) != Init ==> stepsBack == SweepLength()
      ensures old(bwd) == Init ==> (complete <==> steps == 0 || simPhase != Idle || (mode != Native && cfg.al))
      ensures old(bwd) == Init && complete ==> stepsBack == 0 && gpu == old(gpu)
    {
      match bwd {
        case Init => InitBwd();
        case NativeSubmit => NativeLaunch();
        case NativeRead => NativeCollect();
        case RcBegin => RecomputeBegin();
        case RcSnap => Snapshot();
        case RcBwdRead => RecomputeCollect();
        case Done =>
      }
      complete := bwd == Done;
    }

    /** Not begun, between two steps, in the middle of one, or over. */
    ghost predicate BwdOk()
      reads this`bwd, this`mode, this`idx, this`it, this`stepsBack, this`steps, this`rounds
    {
      || (bwd == Init && stepsBack == 0) || bwd == Done || Sweeping()
      || (bwd == NativeSubmit && mode == Native && BetweenSteps()) || (bwd == RcBegin && mode != Native && BetweenSteps())
    }

    /** One phase of a backward; a sweep that is over has gone back over its whole length. */
    method BackwardStage()
      requires Clear(gpu, frame) && running && BwdOk()
      modifies `gpu, `bwd, `idx, `it, `stepsBack, `rounds, `queue, `inserts
      ensures Orderly(old(gpu), gpu, frame) && queue == old(queue)
      ensures inserts == old(inserts) + if bwd == Done then [] else [Stage(Backward, false)]
      ensures bwd != Done ==> Sweeping()
      ensures bwd == Done && old(bwd) != Done && old(bwd) != Init ==> stepsBack == SweepLength()
      ensures old(bwd) == Init ==> (bwd == Done <==> steps == 0 || simPhase != Idle || (mode != Native && cfg.al))
      ensures old(bwd) == Init && bwd == Done ==> stepsBack == 0 && gpu == old(gpu)
    {
      var complete := AdvanceBwd();
      if !complete { Next(Stage(Backward, false)); }
    }

    // --- the queue --------------------------------------------------------------------------------------------

    /** A stage a host may queue; the others queue themselves. */
    static predicate Entry(stage: Stage) {
      stage.kind.StartForward? || stage.kind.StartFit? || stage.kind.StartBackward? || stage.kind.Host?
    }

    /** What a stage that continues something needs. */
    ghost predicate Ready(stage: Stage)
      reads this`fitConverged, this`fitSettling, this`fwdRemaining, this`fwdAsked, this`fwdFrom, this`steps
      reads this`bwd, this`mode, this`idx, this`it, this`stepsBack, this`rounds
    {
      && (stage.kind.Fit? ==> FitOpen())
      && (stage.kind.Forward? ==> Counting() && fwdRemaining > 0)
      && (stage.kind.Backward? ==> Sweeping())
    }

    /** Only the front of the queue continues something: a fit that is open, a forward with
        its steps counted, or a backward in the middle of its sweep. */
    ghost predicate QueueOk(q: seq<Stage>)
      reads this`fitConverged, this`fitSettling, this`fwdRemaining, this`fwdAsked, this`fwdFrom, this`steps
      reads this`bwd, this`mode, this`idx, this`it, this`stepsBack, this`rounds
    {
      (forall i :: 0 < i < |q| ==> Entry(q[i])) && (q != [] ==> Ready(q[0]))
    }

    /** A stage of the host's own: what it reads back or uploads comes before what it
        launches, and it launches once. */
    method HostStage(reading: bool, launching: bool)
      requires Clear(gpu, frame)
      modifies `gpu
      ensures Orderly(old(gpu), gpu, frame) && gpu.submits == old(gpu).submits + if launching then 1 else 0
    {
      if reading { Touch(); }
      if launching { Launch(); }
    }

    method FirstForward(n: int)
      requires Clear(gpu, frame) && running
      modifies `gpu, `simPhase, `pass, `asked, `steps, `fwdRemaining, `fwdAsked, `fwdFrom, `queue, `inserts
      ensures Orderly(old(gpu), gpu, frame) && queue == old(queue) && Counting() && fwdAsked == n && fwdFrom == old(steps)
      ensures inserts == old(inserts) + if fwdRemaining > 0 then [Stage(Forward, false)] else []
      ensures fwdRemaining <= 0 ==> steps == fwdFrom + if n > 0 then n else 0
    {
      hide Orderly;
      fwdRemaining, fwdAsked, fwdFrom := n, n, steps;
      ForwardStage();
    }

    method FirstFit(n: int)
      requires Clear(gpu, frame) && running
      modifies `gpu, `simPhase, `pass, `asked, `steps, `fwdRemaining, `fitSettling, `fitConverged, `queue, `inserts
      ensures Orderly(old(gpu), gpu, frame) && queue == old(queue) && (fwdRemaining > 0 ==> FitOpen())
      ensures inserts == old(inserts) + if fwdRemaining > 0 then [Stage(Fit, false)] else []
    {
      hide Orderly;
      fwdRemaining, fitSettling, fitConverged := n, false, false;
      FitStage();
    }

    method FirstBackward(m: Mode)
      requires Clear(gpu, frame) && running
      modifies `gpu, `bwd, `mode, `idx, `it, `stepsBack, `rounds, `queue, `inserts
      ensures Orderly(old(gpu), gpu, frame) && queue == old(queue)
      ensures simPhase != Idle ==> inserts == old(inserts) && gpu == old(gpu) && bwd == old(bwd)
      ensures simPhase == Idle ==>
                && mode == m
                && (if steps == 0 || (m != Native && cfg.al) then inserts == old(inserts) && stepsBack == 0 && gpu == old(gpu)
                    else inserts == old(inserts) + [Stage(Backward, false)] && Sweeping())
    {
      if simPhase == Idle {
        StartBwd(m);
        BackwardStage();
      }
    }

    /** One stage's own work, and at most one stage that continues it.  A forward of n makes
        n steps, however many stages it takes; a backward goes back over its sweep's length,
        or over nothing when it may not start. */
    method RunStage(stage: Stage)
      requires Clear(gpu, frame) && running && inserts == [] && Ready(stage)
      modifies `gpu, `simPhase, `pass, `asked, `steps, `fwdRemaining, `fwdAsked, `fwdFrom, `fitSettling, `fitConverged
      modifies `bwd, `mode, `idx, `it, `stepsBack, `rounds, `queue, `inserts
      ensures Orderly(old(gpu), gpu, frame) && queue == old(queue)
      ensures |inserts| <= 1 && (inserts != [] ==> Ready(inserts[0]))
      ensures stage.kind.StartForward? ==> fwdAsked == stage.kind.steps && fwdFrom == old(steps)
      ensures stage.kind.Forward? ==> fwdAsked == old(fwdAsked) && fwdFrom == old(fwdFrom)
      ensures stage.kind.StartForward? || stage.kind.Forward? ==>
                if fwdRemaining > 0 then inserts == [Stage(Forward, false)]
                else inserts == [] && steps == fwdFrom + if fwdAsked > 0 then fwdAsked else 0
      ensures stage.kind.StartFit? || stage.kind.Fit? ==> inserts == if fwdRemaining > 0 then [Stage(Fit, false)] else []
      ensures stage.kind.StartBackward? && old(simPhase) != Idle ==> inserts == [] && gpu == old(gpu) && bwd == old(bwd)
      ensures stage.kind.StartBackward? && old(simPhase) == Idle ==>
                && mode == stage.kind.mode
                && (if steps == 0 || (mode != Native && cfg.al) then inserts == [] && stepsBack == 0 && gpu == old(gpu)
                    else inserts == [Stage(Backward, false)])
      ensures stage.kind.Backward? ==> if bwd != Done then inserts == [Stage(Backward, false)] else inserts == [] && stepsBack == SweepLength()
      ensures stage.kind.Host? ==> inserts == [] && gpu.submits == old(gpu).submits + if stage.kind.launching then 1 else 0
    {
      hide Orderly, Counting, FitOpen, SweepLength;
      match stage.kind {
        case StartForward(n) => FirstForward(n);
        case Forward => ForwardStage();
        case StartFit(n) => FirstFit(n);
        case Fit => FitStage();
        case StartBackward(m) => FirstBackward(m);
        case Backward => BackwardStage();
        case Host(reading, launching) => HostStage(reading, launching);
      }
    }

    /** Between ticks: nothing runs, and what is in flight was submitted by now. */
    ghost predicate AtRest()
      reads this
    {
      !running && inserts == [] && QueueOk(queue) && (gpu.pending ==> gpu.submitFrame <= frame)
    }

    /** A frame's tick: stages until one submits or asks to end the tick. The first runs
        unasked: it may read back the submit of an earlier frame. What a stage queued
        goes before what was left. */
    method Tick(now: int, maxStages: nat) returns (ran: nat)
      requires AtRest() && now > frame
      modifies this
      ensures AtRest() && frame == now
      ensures gpu.sameFrameSyncs == old(gpu).sameFrameSyncs
      ensures old(gpu).submits <= gpu.submits <= old(gpu).submits + 1
      ensures done == old(done) + ran && ran <= maxStages && (queue != [] && ran < maxStages && !gpu.pending ==> ran > 0)
    {
      frame := now;
      ran := 0;
      while queue != [] && ran < maxStages
        invariant AtRest() && frame == now && Clear(gpu, frame)
        invariant gpu.sameFrameSyncs == old(gpu).sameFrameSyncs && gpu.submits == old(gpu).submits
        invariant done == old(done) + ran && ran <= maxStages
        decreases maxStages - ran
      {
        var ends := RunFirst();
        ran := ran + 1;
        if ends || gpu.pending { break; }
      }
    }

    /** The front stage, run, with what it queued put in its place. */
    method RunFirst() returns (ends: bool)
      requires AtRest() && queue != [] && Clear(gpu, frame)
      modifies this
      ensures AtRest() && Orderly(old(gpu), gpu, frame) && frame == old(frame) && done == old(done) + 1
      ensures ends == old(queue)[0].ends
      ensures exists more :: |more| <= 1 && queue == more + old(queue)[1..]
    {
      hide Sweeping, Counting, FitOpen, SweepLength;
      var stage := queue[0];
      queue := queue[1..];
      running := true;
      RunStage(stage);
      running := false;
      queue := inserts + queue;
      inserts := [];
      done := done + 1;
      return stage.ends;
    }

    /** A host that ticks at most once a frame: any number of frames, any stages pushed
        before each, and no sync ever falls in its submit's frame. */
    method Frames(ticks: seq<(int, nat, seq<Stage>)>)
      requires AtRest() && forall i :: 0 <= i < |ticks| ==> ticks[i].0 > frame && forall k :: 0 <= k < |ticks[i].2| ==> Entry(ticks[i].2[k])
      requires forall i, j :: 0 <= i < j < |ticks| ==> ticks[i].0 < ticks[j].0
      modifies this
      ensures AtRest() && gpu.sameFrameSyncs == old(gpu).sameFrameSyncs
      ensures gpu.submits <= old(gpu).submits + |ticks|
    {
      for i := 0 to |ticks|
        invariant AtRest() && forall j :: i <= j < |ticks| ==> ticks[j].0 > frame
        invariant gpu.sameFrameSyncs == old(gpu).sameFrameSyncs && gpu.submits <= old(gpu).submits + i
      {
        PushAll(ticks[i].2);
        var ran := Tick(ticks[i].0, ticks[i].1);
      }
    }

    method PushAll(stages: seq<Stage>)
      requires AtRest() && forall k :: 0 <= k < |stages| ==> Entry(stages[k])
      modifies `queue
      ensures AtRest() && queue == old(queue) + stages
    {
      for k := 0 to |stages|
        invariant AtRest() && queue == old(queue) + stages[..k]
      {
        Push(stages[k]);
      }
      assert stages[..|stages|] == stages;
    }
  }
}
