/** lbfgsb: the More-Thuente line search as a loop. */
module MoreThuente {

  // The direct-style loop is what the resumable driver is measured against: Resume is the
  // rest of a search once a trial is asked for, and Search is the whole of it.  Its
  // guarantees are proved here, once, for every objective along the line, over the reals.

  import opened StepSelection

  datatype Params = Params(m: int, epsilon: real, epsilonRel: real, past: int, delta: real, maxIterations: int,
                           maxSubmin: int, maxLinesearch: int, minStep: real, maxStep: real, ftol: real, wolfe: real)

  /** The start of a search: value and slope at the start point, the largest step. */
  datatype Line = Line(fxInit: real, dgInit: real, stepMax: real)

  /** The search's scalars: the trial step, the loop counter, the bracket, and the value
      and slope at its lower end. */
  datatype Ls = Ls(step: real, iter: int, iLo: real, iHi: Ext, fiLo: real, fiHi: Ext, giLo: real, giHi: Ext, fxLo: real, dgLo: real)

  /** A search that stops leaves x at a step and reports a value, or breaks off. */
  datatype Outcome = Stop(step: real, fx: real) | Broken

  /** The parameters, the line, and what computes square roots. */
  datatype Rules = Rules(p: Params, line: Line, root: Root)

  /** The rules, and the objective along the line. */
  datatype Env = Env(r: Rules, value: real -> real, slope: real -> real)

  /** f below the sufficient-decrease line through the start point. */
  function Aux(r: Rules, step: real, f: real): real {
    f - r.line.fxInit - step * (r.p.ftol * r.line.dgInit)
  }

  /** The slope relative to that line's. */
  function Tilted(r: Rules, g: real): real {
    g - r.p.ftol * r.line.dgInit
  }

  predicate StrongWolfe(r: Rules, step: real, f: real, g: real) {
    f <= r.line.fxInit + step * (r.p.ftol * r.line.dgInit) && Abs(g) <= -r.p.wolfe * r.line.dgInit
  }

  function Opening(r: Rules): Ls {
    Ls(Min(1.0, r.line.stepMax), -1, 0.0, Infinite, 0.0, Infinite, (1.0 - r.p.ftol) * r.line.dgInit, Infinite, r.line.fxInit, r.line.dgInit)
  }

  /** One pass of the loop, up to its evaluation. A step that is not a number loses the
      search. */
  datatype Turn = Go(ls: Ls) | Restore(ls: Ls) | Refuse | Lost

  predicate TakesLo(r: Rules, ls: Ls, f: real) {
    Aux(r, ls.step, f) <= ls.fiLo
  }

  /** The new bracket. */
  function Narrow(r: Rules, ls: Ls, f: real, g: real): Ls {
    var ft, gt := Aux(r, ls.step, f), Tilted(r, g);
    if ft > ls.fiLo then ls.(iHi := Fin(ls.step), fiHi := Fin(ft), giHi := Fin(gt))
    else if gt * (ls.iLo - ls.step) > 0.0 then ls.(iLo := ls.step, fiLo := ft, giLo := gt, fxLo := f, dgLo := g)
    else ls.(iHi := Fin(ls.iLo), fiHi := Fin(ls.fiLo), giHi := Fin(ls.giLo),
             iLo := ls.step, fiLo := ft, giLo := gt, fxLo := f, dgLo := g)
  }

  /** What step selection is given. */
  function BracketAt(r: Rules, ls: Ls, f: real, g: real): Bracket {
    Bracket(ls.iLo, ls.iHi, ls.step, ls.fiLo, ls.fiHi, Aux(r, ls.step, f), ls.giLo, ls.giHi, Tilted(r, g))
  }

  /** The trial is low enough and still goes down away from the lower end. */
  predicate GoesOn(r: Rules, ls: Ls, f: real, g: real) {
    TakesLo(r, ls, f) && Tilted(r, g) * (ls.iLo - ls.step) > 0.0
  }

  function NewStep(r: Rules, ls: Ls, f: real, g: real): Step {
    var s := Select(r.root, BracketAt(r, ls, f, g));
    if !TakesLo(r, ls, f) then if s.Num? && s.x <= r.p.minStep then Num((ls.iLo + ls.step) / 2.0) else s
    else if GoesOn(r, ls, f, g) then Num(Min(r.line.stepMax, ls.step + 1.1 * (ls.step - ls.iLo)))
    else s
  }

  function Body(r: Rules, ls: Ls, f: real, g: real): Turn {
    var ls' := Narrow(r, ls, f, g);
    match NewStep(r, ls, f, g)
    case NotANumber => Lost
    case PlusInfinity => if ls.step == r.line.stepMax then Restore(ls') else Refuse
    case Num(s) =>
      if ls.step == r.line.stepMax && s >= r.line.stepMax then Restore(ls')
      else if s < r.p.minStep || s > r.p.maxStep then Refuse
      else Go(ls'.(step := s))
  }

  /** After the loop: the last step if it beats the bracket's lower end, else that. */
  function LastStep(r: Rules, ls: Ls, f: real): Outcome {
    if TakesLo(r, ls, f) then Stop(ls.step, f)
    else if ls.iLo <= 0.0 then Broken
    else Stop(ls.iLo, ls.fxLo)
  }

  /** The loop, at its ls.iter-th pass, with f and g evaluated at ls.step. */
  function Loop(e: Env, ls: Ls, f: real, g: real): Outcome
    decreases e.r.p.maxLinesearch - ls.iter
  {
    if ls.iter >= e.r.p.maxLinesearch then LastStep(e.r, ls, f)
    else
      match Body(e.r, ls, f, g)
      case Refuse => Broken
      case Lost => Broken
      case Restore(ls') => Stop(ls'.iLo, f)
      case Go(ls') =>
        var f', g' := e.value(ls'.step), e.slope(ls'.step);
        if StrongWolfe(e.r, ls'.step, f', g') then Stop(ls'.step, f')
        else if ls'.step >= e.r.line.stepMax && TakesLo(e.r, ls', f') then Stop(ls'.step, f')
        else Loop(e, ls'.(iter := ls.iter + 1), f', g')
  }

  /** The whole search: the first trial, then the loop. */
  function Search(e: Env): Outcome {
    var ls := Opening(e.r);
    var f, g := e.value(ls.step), e.slope(ls.step);
    if StrongWolfe(e.r, ls.step, f, g) then Stop(ls.step, f) else Loop(e, ls.(iter := 0), f, g)
  }

  // --- what the search guarantees -------------------------------------------------------

  /** What start() and the line's start check, and a square root that is one. */
  ghost predicate Sane(r: Rules) {
    IsRoot(r.root) && 0.0 < r.p.ftol < 0.5 && r.p.ftol < r.p.wolfe && r.line.dgInit < 0.0 && r.line.stepMax > 0.0
  }

  /** The lower end is still the start point: trials move back towards it. */
  predicate Untouched(r: Rules, ls: Ls) {
    && ls.iLo == 0.0 && ls.fiLo == 0.0 && ls.giLo == (1.0 - r.p.ftol) * r.line.dgInit && ls.fxLo == r.line.fxInit
    && 0.0 < ls.step <= 1.0 && ls.step <= r.line.stepMax && ls.iHi != Fin(0.0)
  }

  /** The lower end is an evaluated point of the line, at or below the decrease line. */
  ghost predicate Touched(e: Env, ls: Ls) {
    ls.fxLo == e.value(ls.iLo) && ls.fiLo == Aux(e.r, ls.iLo, ls.fxLo) && ls.fiLo <= 0.0
  }

  ghost predicate LoHolds(e: Env, ls: Ls) {
    Untouched(e.r, ls) || Touched(e, ls)
  }

  /** A minimum step keeps trials and the lower end ahead of the start. */
  predicate Ahead(r: Rules, ls: Ls) {
    && (r.p.minStep >= 0.0 ==> ls.step >= 0.0 && ls.iLo >= 0.0)
    && (r.p.minStep > 0.0 ==> ls.step > 0.0 && (ls.iLo > 0.0 || Untouched(r, ls)))
  }

  lemma OpeningHolds(r: Rules)
    requires Sane(r)
    ensures Untouched(r, Opening(r)) && Ahead(r, Opening(r))
  {
  }

  /** fiLo never rises, so never rises above 0, and stays the value of the lower end. */
  lemma NarrowHolds(e: Env, ls: Ls, f: real, g: real)
    requires LoHolds(e, ls) && f == e.value(ls.step)
    ensures Narrow(e.r, ls, f, g).fiLo <= ls.fiLo <= 0.0
    ensures TakesLo(e.r, ls, f) ==> Narrow(e.r, ls, f, g).iLo == ls.step && Touched(e, Narrow(e.r, ls, f, g))
    ensures !TakesLo(e.r, ls, f) ==> Narrow(e.r, ls, f, g).iLo == ls.iLo && (Touched(e, ls) ==> Touched(e, Narrow(e.r, ls, f, g)))
  {
  }

  /** The point the search stops at satisfies the sufficient-decrease condition. The
      value it reports is that point's, unless the step_max exit restored the lower end
      after a trial at stepMax that did not take it: then it is that trial's. A minimum
      step keeps the point ahead of the start. */
  ghost predicate Decreases(e: Env, o: Outcome) {
    o.Stop? ==>
      && Aux(e.r, o.step, e.value(o.step)) <= 0.0
      && (o.fx == e.value(o.step) || KeptTrial(e, o))
      && (e.r.p.minStep >= 0.0 ==> o.step >= 0.0) && (e.r.p.minStep > 0.0 ==> o.step > 0.0)
  }

  /** The documented exception. */
  ghost predicate KeptTrial(e: Env, o: Outcome)
    requires o.Stop?
  {
    o.fx == e.value(e.r.line.stepMax) && Aux(e.r, e.r.line.stepMax, o.fx) > Aux(e.r, o.step, e.value(o.step))
  }

  /** From the start point a trial that is too high leads to one before it. */
  lemma FirstNewStep(r: Rules, ls: Ls, f: real, g: real)
    requires Sane(r) && Untouched(r, ls) && !TakesLo(r, ls, f)
    ensures NewStep(r, ls, f, g).NotANumber? || (NewStep(r, ls, f, g).Num? && 0.0 < NewStep(r, ls, f, g).x < ls.step)
  {
    var b := BracketAt(r, ls, f, g);
    StartsDownhill(r, ls.giLo, ls.step);
    hide Select, Aux;
    FirstStep(r.root, b);
  }

  lemma StartsDownhill(r: Rules, gl: real, step: real)
    requires Sane(r) && gl == (1.0 - r.p.ftol) * r.line.dgInit && step > 0.0
    ensures gl < 0.0 && gl * (step - 0.0) < 0.0
  {
    var p := Positive(1.0 - r.p.ftol, -r.line.dgInit);
    var q := Positive(-gl, step);
  }

  lemma BodyHolds(e: Env, ls: Ls, f: real, g: real)
    requires Sane(e.r) && LoHolds(e, ls) && Ahead(e.r, ls) && f == e.value(ls.step) && g == e.slope(ls.step)
    ensures Body(e.r, ls, f, g).Restore? ==> Decreases(e, Stop(Body(e.r, ls, f, g).ls.iLo, f))
    ensures Body(e.r, ls, f, g).Go? ==> LoHolds(e, Body(e.r, ls, f, g).ls) && Ahead(e.r, Body(e.r, ls, f, g).ls)
  {
    NarrowHolds(e, ls, f, g);
    if Untouched(e.r, ls) && !TakesLo(e.r, ls, f) { FirstNewStep(e.r, ls, f, g); }
    hide NewStep, Aux, Sane;
  }

  lemma TakenDecreases(e: Env, ls: Ls, f: real)
    requires LoHolds(e, ls) && Ahead(e.r, ls) && f == e.value(ls.step) && (TakesLo(e.r, ls, f) || StrongWolfe(e.r, ls.step, f, e.slope(ls.step)))
    ensures Decreases(e, Stop(ls.step, f))
  {
  }

  lemma LastStepDecreases(e: Env, ls: Ls, f: real)
    requires LoHolds(e, ls) && Ahead(e.r, ls) && f == e.value(ls.step)
    ensures Decreases(e, LastStep(e.r, ls, f))
  {
    hide Aux, KeptTrial;
    if TakesLo(e.r, ls, f) { TakenDecreases(e, ls, f); }
  }

  lemma {:induction false} LoopDecreases(e: Env, ls: Ls, f: real, g: real)
    requires Sane(e.r) && LoHolds(e, ls) && Ahead(e.r, ls) && f == e.value(ls.step) && g == e.slope(ls.step)
    ensures Decreases(e, Loop(e, ls, f, g))
    decreases e.r.p.maxLinesearch - ls.iter
  {
    hide Body, Aux, StrongWolfe, TakesLo, LoHolds, Ahead, LastStep, Decreases, Sane;
    if ls.iter >= e.r.p.maxLinesearch {
      LastStepDecreases(e, ls, f);
    } else {
      BodyHolds(e, ls, f, g);
      match Body(e.r, ls, f, g) {
        case Refuse => BrokenDecreases(e);
        case Lost => BrokenDecreases(e);
        case Restore(ls') =>
        case Go(ls') =>
          var f', g' := e.value(ls'.step), e.slope(ls'.step);
          if StrongWolfe(e.r, ls'.step, f', g') || TakesLo(e.r, ls', f') { TakenDecreases(e, ls', f'); }
          var next := ls'.(iter := ls.iter + 1);
          SameLo(e, ls', next);
          LoopDecreases(e, next, f', g');
      }
    }
  }

  lemma BrokenDecreases(e: Env)
    ensures Decreases(e, Broken)
  {
  }

  lemma SameLo(e: Env, ls: Ls, ls': Ls)
    requires LoHolds(e, ls) && Ahead(e.r, ls) && ls' == ls.(iter := ls'.iter)
    ensures LoHolds(e, ls') && Ahead(e.r, ls')
  {
  }

  /** Every search that stops decreases f by the ftol bound. */
  lemma SearchDecreases(e: Env)
    requires Sane(e.r)
    ensures Decreases(e, Search(e))
  {
    var ls := Opening(e.r);
    var f, g := e.value(ls.step), e.slope(ls.step);
    OpeningHolds(e.r);
    assert LoHolds(e, ls);
    hide Loop, Aux, LoHolds, Ahead, StrongWolfe, Decreases, Opening, Sane;
    if StrongWolfe(e.r, ls.step, f, g) {
      TakenDecreases(e, ls, f);
    } else {
      SameLo(e, ls, ls.(iter := 0));
      LoopDecreases(e, ls.(iter := 0), f, g);
    }
  }

  /** A point at or below the decrease line, ahead of the start, is strictly lower. */
  lemma StepDecreases(e: Env, s: real)
    requires Sane(e.r) && Aux(e.r, s, e.value(s)) <= 0.0 && s >= 0.0
    ensures e.value(s) <= e.r.line.fxInit && (s > 0.0 ==> e.value(s) < e.r.line.fxInit)
  {
    var slope := Positive(e.r.p.ftol, -e.r.line.dgInit);
    assert e.r.p.ftol * e.r.line.dgInit == -slope;
    if s > 0.0 { var p := Positive(s, slope); assert s * (-slope) == -p; }
  }

  // --- when the reported value is the point's own ---------------------------------------

  /** The other end is apart from the lower end, and cannot be the next trial again: it is
      higher, or its slope is opposite, or it is left behind. */
  ghost predicate HiApart(e: Env, ls: Ls) {
    ls.iHi.Fin? ==>
      var hi := ls.iHi.value;
      && hi != ls.iLo && ls.fiHi.Fin? && ls.giHi.Fin?
      && (hi != 0.0 ==> ls.fiHi.value == Aux(e.r, hi, e.value(hi)) && ls.giHi.value == Tilted(e.r, e.slope(hi)))
      && (ls.fiHi.value > ls.fiLo || ls.giHi.value * ls.giLo < 0.0 || (hi - ls.iLo) * ls.giLo > 0.0)
  }

  /** The lower end goes down towards the trial, and nothing is past stepMax. */
  ghost predicate Proper(e: Env, ls: Ls) {
    && ls.giLo * (ls.step - ls.iLo) < 0.0 && ls.step <= e.r.line.stepMax && ls.iLo <= e.r.line.stepMax && ls.step > 0.0
    && (ls.iLo != 0.0 ==> ls.giLo == Tilted(e.r, e.slope(ls.iLo))) && HiApart(e, ls)
  }

  /** cubicMin makes no error in this pass. */
  predicate PlainPass(r: Rules, ls: Ls, f: real, g: real) {
    GoesOn(r, ls, f, g) || Plain(BracketAt(r, ls, f, g))
  }

  /** The pass restores a lower end that is not the trial. */
  predicate RestoresOther(r: Rules, ls: Ls, f: real, g: real) {
    Body(r, ls, f, g).Restore? && !TakesLo(r, ls, f)
  }

  /** The mean of the two points cubicMin and quadMin3 suggest. */
  function MeanStep(b: Bracket): real {
    var aq := QuadMin3(b.al, b.at, b.fl, b.gl, b.ft);
    if aq.Num? && BracketZ2(b) != 0.0 then (aq.x + -0.5 * BracketZ1(b) / BracketZ2(b)) / 2.0 else 0.0
  }

  /** Exactly when the step_max exit leaves a point and reports another one's value: the
      trial at stepMax is too high and cubicMin, taking the cubic for a quadratic, puts
      the turn so far out that the mean with quadMin3's point is not below stepMax. */
  lemma RestoresOtherExactly(e: Env, ls: Ls, f: real, g: real)
    requires Sane(e.r) && Proper(e, ls) && f == e.value(ls.step) && g == e.slope(ls.step)
    ensures var b := BracketAt(e.r, ls, f, g);
            RestoresOther(e.r, ls, f, g) <==>
            !TakesLo(e.r, ls, f) && ls.step == e.r.line.stepMax && Overshoots(b) && MeanStep(b) > e.r.p.minStep
  {
    var b := BracketAt(e.r, ls, f, g);
    if !TakesLo(e.r, ls, f) && ls.step == e.r.line.stepMax {
      BracketIsDownhill(e, ls, f, g);
      FartherStep(e.r.root, b);
      assert b.al < b.at;
      if Overshoots(b) { OvershootIsMean(e.r.root, b); }
      hide *;
      HighRestores(e.r, ls, f, g, b);
    } else {
      hide NewStep, Narrow, Sane, Proper, MeanStep, Overshoots, Aux;
    }
  }

  lemma HighRestores(r: Rules, ls: Ls, f: real, g: real, b: Bracket)
    requires b == BracketAt(r, ls, f, g) && !TakesLo(r, ls, f) && ls.step == r.line.stepMax && ls.iLo < ls.step
    requires !Select(r.root, b).PlusInfinity? && (Select(r.root, b).Num? && Select(r.root, b).x >= b.at <==> Overshoots(b))
    requires Overshoots(b) ==> Select(r.root, b) == Num(MeanStep(b))
    ensures RestoresOther(r, ls, f, g) <==> Overshoots(b) && MeanStep(b) > r.p.minStep
  {
    hide Aux, Select, Overshoots, MeanStep, Narrow, GoesOn;
  }

  lemma BracketIsDownhill(e: Env, ls: Ls, f: real, g: real)
    requires Proper(e, ls)
    ensures Downhill(BracketAt(e.r, ls, f, g)) && BracketAt(e.r, ls, f, g).au != Fin(ls.iLo) && ls.step != ls.iLo
  {
  }

  /** The step of a bracket that overshoots. */
  lemma OvershootIsMean(root: Root, b: Bracket)
    requires Downhill(b) && b.ft > b.fl && b.au != Fin(b.al) && b.al < b.at && Overshoots(b)
    ensures Select(root, b) == Num(MeanStep(b))
  {
    DownhillApart(b);
    NearCubic(root, b);
    var w := QuadInside(b);
    InBetween(b, w);
    HalfWay(b, w);
    hide At, QuadMin3, Downhill, NearQuadratic, BracketZ2, BracketZ1, BracketZ3, TurnsBy, IsRoot, CubicMin;
  }

  // --- a search without errors -----------------------------------------------------------

  lemma Signs(x: real, y: real)
    ensures x * y > 0.0 <==> (x > 0.0 && y > 0.0) || (x < 0.0 && y < 0.0)
    ensures x * y < 0.0 <==> (x > 0.0 && y < 0.0) || (x < 0.0 && y > 0.0)
  {
    if x > 0.0 && y > 0.0 { var p := Positive(x, y); }
    if x < 0.0 && y < 0.0 { var p := Positive(-x, -y); }
    if x > 0.0 && y < 0.0 { var p := Positive(x, -y); }
    if x < 0.0 && y > 0.0 { var p := Positive(-x, y); }
  }

  /** A low trial that does not end the search has a slope to follow. */
  lemma LowTrialSlopes(e: Env, ls: Ls, f: real, g: real)
    requires Sane(e.r) && LoHolds(e, ls) && TakesLo(e.r, ls, f) && !StrongWolfe(e.r, ls.step, f, g)
    ensures Tilted(e.r, g) != 0.0
  {
    var d := Positive(e.r.p.ftol, -e.r.line.dgInit);
    var w := Positive(e.r.p.wolfe - e.r.p.ftol, -e.r.line.dgInit);
    assert -e.r.p.wolfe * e.r.line.dgInit == w + d;
    assert e.r.p.ftol * e.r.line.dgInit == -d;
  }

  lemma HighPass(e: Env, ls: Ls, f: real, g: real)
    requires Sane(e.r) && Proper(e, ls) && !TakesLo(e.r, ls, f) && PlainPass(e.r, ls, f, g) && Ahead(e.r, ls) && e.r.p.minStep > 0.0
    requires f == e.value(ls.step) && g == e.slope(ls.step)
    ensures !Body(e.r, ls, f, g).Restore? && (Body(e.r, ls, f, g).Go? ==> Proper(e, Body(e.r, ls, f, g).ls))
  {
    var b := BracketAt(e.r, ls, f, g);
    BracketIsDownhill(e, ls, f, g);
    FartherStep(e.r.root, b);
    hide Aux, Select, Sane, Downhill, Tilted, Overshoots, Plain, Loses;
    if Body(e.r, ls, f, g).Go? {
      var x := Body(e.r, ls, f, g).ls.step;
      Signs(ls.giLo, ls.step - ls.iLo);
      Signs(ls.giLo, x - ls.iLo);
    }
  }

  lemma ClimbingPass(e: Env, ls: Ls, f: real, g: real)
    requires Sane(e.r) && LoHolds(e, ls) && Proper(e, ls) && TakesLo(e.r, ls, f) && !GoesOn(e.r, ls, f, g) && PlainPass(e.r, ls, f, g)
    requires e.r.p.minStep > 0.0 && !StrongWolfe(e.r, ls.step, f, g) && f == e.value(ls.step) && g == e.slope(ls.step)
    ensures !Body(e.r, ls, f, g).Restore? && (Body(e.r, ls, f, g).Go? ==> Proper(e, Body(e.r, ls, f, g).ls))
  {
    var b := BracketAt(e.r, ls, f, g);
    BracketIsDownhill(e, ls, f, g);
    LowTrialSlopes(e, ls, f, g);
    var gt := Tilted(e.r, g);
    Signs(ls.giLo, ls.step - ls.iLo);
    Signs(gt, ls.iLo - ls.step);
    Signs(gt, ls.giLo);
    NearerStep(e.r.root, b);
    hide Aux, Select, Sane, Downhill, Tilted, Overshoots, Plain, StrongWolfe;
    if Body(e.r, ls, f, g).Go? {
      var x := Body(e.r, ls, f, g).ls.step;
      Signs(gt, x - ls.step);
      Signs(ls.giLo, gt);
    }
  }

  /** Going on never meets the other end. */
  lemma MissesHi(e: Env, ls: Ls, f: real, g: real)
    requires Proper(e, ls) && GoesOn(e.r, ls, f, g) && f == e.value(ls.step) && g == e.slope(ls.step)
    ensures ls.iHi.Fin? ==> ls.iHi.value != ls.step
    ensures ls.iHi.Fin? && ls.giHi.Fin? && ls.giHi.value * ls.giLo < 0.0 ==> ls.giHi.value * Tilted(e.r, g) < 0.0
    ensures ls.iHi.Fin? && (ls.iHi.value - ls.iLo) * ls.giLo > 0.0 ==> (ls.iHi.value - ls.step) * Tilted(e.r, g) > 0.0
  {
    var gt := Tilted(e.r, g);
    Signs(ls.giLo, ls.step - ls.iLo);
    Signs(gt, ls.iLo - ls.step);
    if ls.iHi.Fin? {
      Signs(ls.iHi.value - ls.iLo, ls.giLo);
      Signs(ls.iHi.value - ls.step, gt);
      if ls.giHi.Fin? {
        Signs(ls.giHi.value, ls.giLo);
        Signs(ls.giHi.value, gt);
      }
    }
    hide Aux, Tilted;
  }

  lemma GoingPass(e: Env, ls: Ls, f: real, g: real)
    requires Proper(e, ls) && GoesOn(e.r, ls, f, g) && e.r.p.minStep > 0.0 && f == e.value(ls.step) && g == e.slope(ls.step)
    ensures Body(e.r, ls, f, g).Restore? <==> ls.step == e.r.line.stepMax
    ensures Body(e.r, ls, f, g).Go? ==> Proper(e, Body(e.r, ls, f, g).ls)
  {
    MissesHi(e, ls, f, g);
    var gt := Tilted(e.r, g);
    Signs(ls.giLo, ls.step - ls.iLo);
    Signs(gt, ls.iLo - ls.step);
    if Body(e.r, ls, f, g).Go? {
      Signs(gt, Body(e.r, ls, f, g).ls.step - ls.step);
    }
    hide Aux, Select, Tilted;
  }

  lemma OnlyLow(r: Rules, ls: Ls, f: real, g: real)
    ensures GoesOn(r, ls, f, g) ==> TakesLo(r, ls, f)
  {
  }

  /** A pass without an error keeps the bracket proper and restores nothing but the
      trial, when that is at stepMax and still goes down. */
  lemma PassKeepsProper(e: Env, ls: Ls, f: real, g: real)
    requires Sane(e.r) && LoHolds(e, ls) && Ahead(e.r, ls) && Proper(e, ls) && PlainPass(e.r, ls, f, g) && e.r.p.minStep > 0.0
    requires !StrongWolfe(e.r, ls.step, f, g) && f == e.value(ls.step) && g == e.slope(ls.step)
    ensures Body(e.r, ls, f, g).Restore? <==> GoesOn(e.r, ls, f, g) && ls.step == e.r.line.stepMax
    ensures Body(e.r, ls, f, g).Go? ==> Proper(e, Body(e.r, ls, f, g).ls)
  {
    hide *;
    if !TakesLo(e.r, ls, f) {
      HighPass(e, ls, f, g);
      OnlyLow(e.r, ls, f, g);
    } else if GoesOn(e.r, ls, f, g) {
      GoingPass(e, ls, f, g);
    } else {
      ClimbingPass(e, ls, f, g);
    }
  }

  /** Exactly when a pass loses its step: the trial is too high and the cubic's inflection
      is at step 0. */
  lemma LosesStepExactly(e: Env, ls: Ls, f: real, g: real)
    requires Sane(e.r) && LoHolds(e, ls) && Proper(e, ls) && PlainPass(e.r, ls, f, g)
    requires !StrongWolfe(e.r, ls.step, f, g) && f == e.value(ls.step) && g == e.slope(ls.step)
    ensures Body(e.r, ls, f, g).Lost? <==> !TakesLo(e.r, ls, f) && Loses(BracketAt(e.r, ls, f, g))
  {
    var b := BracketAt(e.r, ls, f, g);
    BracketIsDownhill(e, ls, f, g);
    if !TakesLo(e.r, ls, f) {
      FartherStep(e.r.root, b);
    } else if !GoesOn(e.r, ls, f, g) {
      LowTrialSlopes(e, ls, f, g);
      Signs(ls.giLo, ls.step - ls.iLo);
      Signs(Tilted(e.r, g), ls.iLo - ls.step);
      Signs(Tilted(e.r, g), ls.giLo);
      NearerStep(e.r.root, b);
    }
    hide Aux, Select, Sane, Downhill, Tilted, Overshoots, Plain, Loses, StrongWolfe, Proper, LoHolds;
  }

  /** No pass of the loop from here on makes an error. */
  predicate LoopClean(e: Env, ls: Ls, f: real, g: real)
    decreases e.r.p.maxLinesearch - ls.iter
  {
    ls.iter < e.r.p.maxLinesearch ==>
      && PlainPass(e.r, ls, f, g)
      && match Body(e.r, ls, f, g)
         case Go(ls') =>
           var f', g' := e.value(ls'.step), e.slope(ls'.step);
           StrongWolfe(e.r, ls'.step, f', g') || (ls'.step >= e.r.line.stepMax && TakesLo(e.r, ls', f'))
           || LoopClean(e, ls'.(iter := ls.iter + 1), f', g')
         case _ => true
  }

  predicate SearchClean(e: Env) {
    var ls := Opening(e.r);
    var f, g := e.value(ls.step), e.slope(ls.step);
    StrongWolfe(e.r, ls.step, f, g) || LoopClean(e, ls.(iter := 0), f, g)
  }

  ghost predicate Exact(e: Env, o: Outcome) {
    o.Stop? ==> o.fx == e.value(o.step)
  }

  lemma {:induction false} LoopExact(e: Env, ls: Ls, f: real, g: real)
    requires Sane(e.r) && LoHolds(e, ls) && Ahead(e.r, ls) && Proper(e, ls) && e.r.p.minStep > 0.0
    requires f == e.value(ls.step) && g == e.slope(ls.step) && !StrongWolfe(e.r, ls.step, f, g) && LoopClean(e, ls, f, g)
    ensures Exact(e, Loop(e, ls, f, g))
    decreases e.r.p.maxLinesearch - ls.iter
  {
    hide Body, Aux, StrongWolfe, TakesLo, LoHolds, Ahead, Proper, Sane, PlainPass, GoesOn;
    if ls.iter >= e.r.p.maxLinesearch {
      LastStepExact(e, ls, f);
    } else {
      BodyHolds(e, ls, f, g);
      PassKeepsProper(e, ls, f, g);
      OnlyLow(e.r, ls, f, g);
      match Body(e.r, ls, f, g) {
        case Refuse =>
        case Lost =>
        case Restore(ls') => RestoredIsTrial(e.r, ls, f, g);
        case Go(ls') =>
          var f', g' := e.value(ls'.step), e.slope(ls'.step);
          var next := ls'.(iter := ls.iter + 1);
          SameLo(e, ls', next);
          SameProper(e, ls', next);
          if !(StrongWolfe(e.r, ls'.step, f', g') || (ls'.step >= e.r.line.stepMax && TakesLo(e.r, ls', f'))) {
            LoopExact(e, next, f', g');
          }
      }
    }
  }

  lemma RestoredIsTrial(r: Rules, ls: Ls, f: real, g: real)
    requires Body(r, ls, f, g).Restore? && TakesLo(r, ls, f)
    ensures Body(r, ls, f, g).ls.iLo == ls.step
  {
    hide NewStep, Aux;
  }

  lemma LastStepExact(e: Env, ls: Ls, f: real)
    requires LoHolds(e, ls) && f == e.value(ls.step)
    ensures Exact(e, LastStep(e.r, ls, f))
  {
  }

  lemma SameProper(e: Env, ls: Ls, ls': Ls)
    requires Proper(e, ls) && ls' == ls.(iter := ls'.iter)
    ensures Proper(e, ls')
  {
  }

  lemma OpeningIsProper(e: Env)
    requires Sane(e.r)
    ensures Proper(e, Opening(e.r))
  {
    StartsDownhill(e.r, Opening(e.r).giLo, Opening(e.r).step);
  }

  /** A search in which cubicMin makes no error reports the value of the point it stops
      at: the step_max exit restores nothing but the trial. */
  lemma SearchExact(e: Env)
    requires Sane(e.r) && e.r.p.minStep > 0.0 && SearchClean(e)
    ensures Exact(e, Search(e))
  {
    var ls := Opening(e.r);
    var f, g := e.value(ls.step), e.slope(ls.step);
    OpeningHolds(e.r);
    OpeningIsProper(e);
    assert LoHolds(e, ls);
    hide Loop, LoopClean, Aux, LoHolds, Ahead, StrongWolfe, Opening, Sane, Proper;
    if !StrongWolfe(e.r, ls.step, f, g) {
      SameLo(e, ls, ls.(iter := 0));
      SameProper(e, ls, ls.(iter := 0));
      LoopExact(e, ls.(iter := 0), f, g);
    }
  }

  // --- the search, resumed at an evaluation --------------------------------------------------

  /** What is still to come when an evaluation at ls.step has been asked for: the first
      one if ls.iter is -1, one inside the loop otherwise. */
  function Resume(e: Env, ls: Ls): Outcome {
    var f, g := e.value(ls.step), e.slope(ls.step);
    if StrongWolfe(e.r, ls.step, f, g) then Stop(ls.step, f)
    else if ls.iter >= 0 && ls.step >= e.r.line.stepMax && TakesLo(e.r, ls, f) then Stop(ls.step, f)
    else Loop(e, ls.(iter := ls.iter + 1), f, g)
  }

  lemma ResumeAtStart(e: Env)
    ensures Resume(e, Opening(e.r)) == Search(e)
  {
  }

  /** A pass that goes on resumes at the next evaluation. */
  lemma ResumeInLoop(e: Env, ls: Ls, f: real, g: real)
    requires 0 <= ls.iter < e.r.p.maxLinesearch && Body(e.r, ls, f, g).Go?
    ensures Loop(e, ls, f, g) == Resume(e, Body(e.r, ls, f, g).ls)
  {
    hide NewStep, Aux, StrongWolfe;
  }

  // --- what the search evaluates ------------------------------------------------------------

  /** The steps the loop evaluates from its ls.iter-th pass on. */
  function LoopTrials(e: Env, ls: Ls, f: real, g: real): (steps: seq<real>)
    ensures ls.iter <= e.r.p.maxLinesearch ==> |steps| <= e.r.p.maxLinesearch - ls.iter
    decreases e.r.p.maxLinesearch - ls.iter
  {
    if ls.iter >= e.r.p.maxLinesearch || !Body(e.r, ls, f, g).Go? then []
    else
      var ls' := Body(e.r, ls, f, g).ls;
      var f', g' := e.value(ls'.step), e.slope(ls'.step);
      if StrongWolfe(e.r, ls'.step, f', g') || (ls'.step >= e.r.line.stepMax && TakesLo(e.r, ls', f')) then [ls'.step]
      else [ls'.step] + LoopTrials(e, ls'.(iter := ls.iter + 1), f', g')
  }

  /** The steps a search evaluates: at most maxLinesearch + 1 of them. */
  function SearchTrials(e: Env): (steps: seq<real>)
    requires e.r.p.maxLinesearch >= 0
    ensures |steps| <= e.r.p.maxLinesearch + 1
  {
    var ls := Opening(e.r);
    var f, g := e.value(ls.step), e.slope(ls.step);
    if StrongWolfe(e.r, ls.step, f, g) then [ls.step] else [ls.step] + LoopTrials(e, ls.(iter := 0), f, g)
  }

  /** Two objectives alike at some steps. */
  ghost predicate Alike(e: Env, e': Env, steps: seq<real>) {
    e.r == e'.r && forall s :: s in steps ==> e.value(s) == e'.value(s) && e.slope(s) == e'.slope(s)
  }

  lemma {:induction false} LoopSeesTrials(e: Env, e': Env, ls: Ls, f: real, g: real)
    requires Alike(e, e', LoopTrials(e, ls, f, g))
    ensures Loop(e', ls, f, g) == Loop(e, ls, f, g) && LoopTrials(e', ls, f, g) == LoopTrials(e, ls, f, g)
    decreases e.r.p.maxLinesearch - ls.iter
  {
    hide Body, StrongWolfe, TakesLo;
    if ls.iter < e.r.p.maxLinesearch && Body(e.r, ls, f, g).Go? {
      var ls' := Body(e.r, ls, f, g).ls;
      var f', g' := e.value(ls'.step), e.slope(ls'.step);
      assert ls'.step in LoopTrials(e, ls, f, g);
      if !(StrongWolfe(e.r, ls'.step, f', g') || (ls'.step >= e.r.line.stepMax && TakesLo(e.r, ls', f'))) {
        LoopSeesTrials(e, e', ls'.(iter := ls.iter + 1), f', g');
      }
    }
  }

  /** The search looks at the objective at its trials only: another objective, alike at
      those steps, is searched the same way with the same outcome. */
  lemma SearchSeesTrials(e: Env, e': Env)
    requires e.r.p.maxLinesearch >= 0 && Alike(e, e', SearchTrials(e))
    ensures Search(e') == Search(e) && SearchTrials(e') == SearchTrials(e)
    ensures |SearchTrials(e)| <= e.r.p.maxLinesearch + 1
  {
    hide Loop, LoopTrials, StrongWolfe, Opening;
    var ls := Opening(e.r);
    var f, g := e.value(ls.step), e.slope(ls.step);
    assert ls.step in SearchTrials(e);
    if !StrongWolfe(e.r, ls.step, f, g) {
      LoopSeesTrials(e, e', ls.(iter := 0), f, g);
    }
  }

  /** The strong Wolfe conditions at a step. */
  predicate Wolfe(e: Env, s: real) {
    && e.value(s) <= e.r.line.fxInit + s * (e.r.p.ftol * e.r.line.dgInit)
    && Abs(e.slope(s)) <= -e.r.p.wolfe * e.r.line.dgInit
  }

  lemma {:induction false} LoopStopsAtWolfe(e: Env, ls: Ls, f: real, g: real)
    ensures var steps := LoopTrials(e, ls, f, g);
            && (forall i :: 0 <= i < |steps| - 1 ==> !Wolfe(e, steps[i]))
            && (|steps| > 0 && Wolfe(e, steps[|steps| - 1]) ==>
                Loop(e, ls, f, g) == Stop(steps[|steps| - 1], e.value(steps[|steps| - 1])))
    decreases e.r.p.maxLinesearch - ls.iter
  {
    hide Body, TakesLo;
    if ls.iter < e.r.p.maxLinesearch && Body(e.r, ls, f, g).Go? {
      var ls' := Body(e.r, ls, f, g).ls;
      var f', g' := e.value(ls'.step), e.slope(ls'.step);
      WolfeIsStrong(e, ls'.step);
      if !(StrongWolfe(e.r, ls'.step, f', g') || (ls'.step >= e.r.line.stepMax && TakesLo(e.r, ls', f'))) {
        hide StrongWolfe, Wolfe;
        LoopStopsAtWolfe(e, ls'.(iter := ls.iter + 1), f', g');
      }
    }
  }

  lemma WolfeIsStrong(e: Env, s: real)
    ensures Wolfe(e, s) <==> StrongWolfe(e.r, s, e.value(s), e.slope(s))
  {
  }

  /** A search stops at the first trial that meets the strong Wolfe conditions, if any of
      its trials does. */
  lemma SearchStopsAtWolfe(e: Env)
    requires e.r.p.maxLinesearch >= 0
    ensures var steps := SearchTrials(e);
            && |steps| > 0 && (forall i :: 0 <= i < |steps| - 1 ==> !Wolfe(e, steps[i]))
            && (Wolfe(e, steps[|steps| - 1]) ==> Search(e) == Stop(steps[|steps| - 1], e.value(steps[|steps| - 1])))
  {
    hide Loop, LoopTrials, Opening, StrongWolfe, Wolfe;
    var ls := Opening(e.r);
    var f, g := e.value(ls.step), e.slope(ls.step);
    WolfeIsStrong(e, ls.step);
    if !StrongWolfe(e.r, ls.step, f, g) {
      LoopStopsAtWolfe(e, ls.(iter := 0), f, g);
    }
  }

  // --- its passes ---------------------------------------------------------------------------

  datatype Pass = Pass(ls: Ls, f: real, g: real)

  /** The passes of the loop from its ls.iter-th on. */
  function LoopPasses(e: Env, ls: Ls, f: real, g: real): seq<Pass>
    decreases e.r.p.maxLinesearch - ls.iter
  {
    if ls.iter >= e.r.p.maxLinesearch then []
    else if !Body(e.r, ls, f, g).Go? then [Pass(ls, f, g)]
    else
      var ls' := Body(e.r, ls, f, g).ls;
      var f', g' := e.value(ls'.step), e.slope(ls'.step);
      if StrongWolfe(e.r, ls'.step, f', g') || (ls'.step >= e.r.line.stepMax && TakesLo(e.r, ls', f')) then [Pass(ls, f, g)]
      else [Pass(ls, f, g)] + LoopPasses(e, ls'.(iter := ls.iter + 1), f', g')
  }

  function SearchPasses(e: Env): seq<Pass> {
    var ls := Opening(e.r);
    var f, g := e.value(ls.step), e.slope(ls.step);
    if StrongWolfe(e.r, ls.step, f, g) then [] else LoopPasses(e, ls.(iter := 0), f, g)
  }

  lemma {:induction false} LoopPassesAre(e: Env, ls: Ls, f: real, g: real)
    requires f == e.value(ls.step) && g == e.slope(ls.step)
    ensures var passes, trials := LoopPasses(e, ls, f, g), [ls.step] + LoopTrials(e, ls, f, g);
            && |trials| - 1 <= |passes| <= |trials|
            && forall i :: 0 <= i < |passes| ==>
                 passes[i].ls.step == trials[i] && passes[i].f == e.value(trials[i]) && passes[i].g == e.slope(trials[i])
    ensures LoopClean(e, ls, f, g) <==> AllClean(e.r, LoopPasses(e, ls, f, g))
    decreases e.r.p.maxLinesearch - ls.iter
  {
    hide Body, StrongWolfe, TakesLo, PlainPass;
    AllCleanFirst(e.r, Pass(ls, f, g), []);
    assert [Pass(ls, f, g)] + [] == [Pass(ls, f, g)];
    if ls.iter < e.r.p.maxLinesearch && Body(e.r, ls, f, g).Go? {
      var ls' := Body(e.r, ls, f, g).ls;
      var f', g' := e.value(ls'.step), e.slope(ls'.step);
      if !(StrongWolfe(e.r, ls'.step, f', g') || (ls'.step >= e.r.line.stepMax && TakesLo(e.r, ls', f'))) {
        var next := ls'.(iter := ls.iter + 1);
        LoopPassesAre(e, next, f', g');
        var rest := LoopPasses(e, next, f', g');
        assert LoopPasses(e, ls, f, g) == [Pass(ls, f, g)] + rest;
        AllCleanFirst(e.r, Pass(ls, f, g), rest);
      }
    }
  }

  predicate CleanAt(r: Rules, p: Pass) {
    PlainPass(r, p.ls, p.f, p.g)
  }

  predicate AllClean(r: Rules, passes: seq<Pass>) {
    forall i :: 0 <= i < |passes| ==> CleanAt(r, passes[i])
  }

  lemma AllCleanFirst(r: Rules, p: Pass, rest: seq<Pass>)
    ensures AllClean(r, [p] + rest) <==> CleanAt(r, p) && AllClean(r, rest)
  {
    hide CleanAt;
    if AllClean(r, [p] + rest) {
      forall i | 0 <= i < |rest| ensures CleanAt(r, rest[i]) { assert ([p] + rest)[i + 1] == rest[i]; }
      assert ([p] + rest)[0] == p;
    }
  }

  /** A search is clean exactly when cubicMin makes no error in any of its passes, which
      are at its trials, all of them but perhaps the last. */
  lemma SearchCleanExactly(e: Env)
    requires e.r.p.maxLinesearch >= 0
    ensures SearchClean(e) <==> AllClean(e.r, SearchPasses(e))
    ensures var passes, trials := SearchPasses(e), SearchTrials(e);
            && |trials| - 1 <= |passes| <= |trials|
            && forall i :: 0 <= i < |passes| ==>
                 passes[i].ls.step == trials[i] && passes[i].f == e.value(trials[i]) && passes[i].g == e.slope(trials[i])
  {
    hide LoopPasses, LoopTrials, LoopClean, Opening, StrongWolfe, PlainPass;
    var ls := Opening(e.r);
    LoopPassesAre(e, ls.(iter := 0), e.value(ls.step), e.slope(ls.step));
  }
}
