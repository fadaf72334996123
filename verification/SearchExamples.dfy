/** lbfgsb: line searches that come out otherwise than one would like.

    Each is a line with its value and slope at the few steps the search asks for: one whose
    first pass loses its step, one that stops at a point and reports the value of another,
    and one, for every negative minimum step, that ends behind its start and higher.  Values
    and slopes at finitely many steps are those of some polynomial. */
module SearchExamples {
  import opened StepSelection
  import opened MoreThuente

  /** LBFGSpp's defaults but for the two tests' slopes and the minimum step. */
  function ParamsWith(minStep: real): Params {
    Params(6, 0.00001, 0.00001, 1, 0.0, 0, 10, 20, minStep, 1000.0, 0.25, 0.3)
  }

  function RulesWith(root: Root, minStep: real, stepMax: real): Rules {
    Rules(ParamsWith(minStep), Line(0.0, -1.0, stepMax), root)
  }

  // --- a step that is not a number ----------------------------------------------------------

  /** The objective 3/2 x^3 - x from x = 0 along 1. */
  function Cubic3(root: Root): Env {
    Env(RulesWith(root, 0.001, 2.0), x => 1.5 * (x * x * x) - x, x => 4.5 * (x * x) - 1.0)
  }

  const LOSING := Bracket(0.0, Infinite, 1.0, 0.0, Infinite, 0.75, -0.75, Infinite, 3.75)

  lemma LosingCoefficients()
    ensures BracketZ3(LOSING) == 1.5 && BracketZ2(LOSING) == 0.0 && BracketZ1(LOSING) == -0.75
  {
    hide Z1, Z2, Slope;
    assert BracketZ3(LOSING) == 1.5 && Middle(LOSING) == 0.0 && Start(LOSING) == -0.75 && Length(LOSING) == 1.0;
    BracketNormal(LOSING);
  }

  lemma LosingCubic(root: Root)
    ensures CubicOf(root, 1.0, 1.0, -0.75, 0.0, 1.5) == Cubic(NotANumber, true)
  {
  }

  lemma LosingBracket(root: Root)
    ensures Select(root, LOSING) == NotANumber
  {
    LosingCoefficients();
    LosingCubic(root);
    hide Z1, Z2, Z3, CubicOf, QuadMin3, QuadMin2;
    assert BracketCubic(root, LOSING) == Cubic(NotANumber, true);
  }

  lemma LostBody(r: Rules, ls: Ls, f: real, g: real)
    requires !TakesLo(r, ls, f) && Select(r.root, BracketAt(r, ls, f, g)) == NotANumber
    ensures Body(r, ls, f, g).Lost?
  {
    hide Select, Aux;
  }

  lemma FirstTrialOf(e: Env)
    requires !StrongWolfe(e.r, Opening(e.r).step, e.value(Opening(e.r).step), e.slope(Opening(e.r).step))
    ensures var ls := Opening(e.r);
            Search(e) == Loop(e, ls.(iter := 0), e.value(ls.step), e.slope(ls.step))
  {
    hide Loop, StrongWolfe;
  }

  /** Its first trial, at 1, is too high, and the cubic through both ends is the objective
      itself, whose inflection is at 0: the search computes zero times infinity. */
  lemma InflectionLosesTheSearch(root: Root)
    ensures var e := Cubic3(root);
            && Body(e.r, Opening(e.r).(iter := 0), e.value(1.0), e.slope(1.0)).Lost? && Search(e) == Broken
  {
    var e := Cubic3(root);
    var ls := Opening(e.r).(iter := 0);
    hide Select, Loop, Search, Body;
    assert ls == Ls(1.0, 0, 0.0, Infinite, 0.0, Infinite, -0.75, Infinite, 0.0, -1.0);
    assert e.value(1.0) == 0.5 && e.slope(1.0) == 3.5;
    assert BracketAt(e.r, ls, 0.5, 3.5) == LOSING;
    LosingBracket(root);
    LostBody(e.r, ls, 0.5, 3.5);
    FirstTrialOf(e);
    LostLoop(e, ls, 0.5, 3.5);
  }

  lemma LostLoop(e: Env, ls: Ls, f: real, g: real)
    requires ls.iter < e.r.p.maxLinesearch && Body(e.r, ls, f, g).Lost?
    ensures Loop(e, ls, f, g) == Broken
  {
    hide Body;
  }

  // --- a value that is not the accepted point's ---------------------------------------------

  /** A largest step one machine epsilon past the first trial. */
  function Kept(root: Root): Env {
    Env(RulesWith(root, 0.001, 1.0 + EPS),
        x => if x == 0.0 then 0.0 else if x == 1.0 then -1.25 else -1.0 + EPS - 0.25 * (1.0 + EPS),
        x => if x == 0.0 then -1.0 else if x == 1.0 then -1.25 else 2.75 + 2.5 * (EPS * EPS))
  }

  const KEPT := Bracket(1.0, Infinite, 1.0 + EPS, -1.0, Infinite, -1.0 + EPS, -1.0, Infinite, 3.0 + 2.5 * (EPS * EPS))

  /** In terms of a small e: nearly a quadratic, with a turn more than twice as far out as
      the trial. */
  lemma KeptCoefficients(e: real)
    requires e == EPS
    ensures var b := KEPT;
            && BracketZ3(b) == 2.5 * (e * e * e)
            && BracketZ2(b) == 2.0 * (e * e) - 2.5 * (e * e * e * e) - 7.5 * (e * e * e)
            && BracketZ1(b) == 6.5 * (e * e * e) + 5.0 * (e * e * e * e) - 4.0 * (e * e)
  {
    hide Z1, Z2, Slope;
    assert Length(KEPT) == e && Start(KEPT) == -e && BracketZ3(KEPT) == 2.5 * (e * e * e);
    assert Middle(KEPT) == 2.0 * e - 2.5 * (e * e * e);
    BracketNormal(KEPT);
  }

  lemma KeptSizes(e: real, z1: real, z2: real, z3: real) returns (ee: real)
    requires 0.0 < e < 0.001
    requires z3 == 2.5 * (e * e * e) && z2 == 2.0 * (e * e) - 2.5 * (e * e * e * e) - 7.5 * (e * e * e)
    requires z1 == 6.5 * (e * e * e) + 5.0 * (e * e * e * e) - 4.0 * (e * e)
    ensures ee == e * e > 0.0 && z2 > 1.9 * ee && z2 <= 2.0 * ee
    ensures 0.0 < z3 < e * -z1 && z1 < 0.0
    ensures -0.5 * z1 - z2 >= 4.2 * (e * ee)
  {
    ee := Positive(e, e);
    var e3 := Positive(e, ee);
    var e4 := Positive(e, e3);
    assert z2 == 2.0 * ee - 2.5 * e4 - 7.5 * e3 && z1 == 6.5 * e3 + 5.0 * e4 - 4.0 * ee && z3 == 2.5 * e3;
    var s3 := Positive(0.001 - e, ee);
    var s4 := Positive(0.001 - e, e3);
    assert e3 < 0.001 * ee && e4 < 0.001 * e3;
    assert e * -z1 == 4.0 * e3 - 6.5 * e4 - 5.0 * (e * e4);
    var e5 := Positive(e, e4);
    var s5 := Positive(0.001 - e, e4);
  }

  lemma KeptOvershoots()
    ensures Overshoots(KEPT) && MeanStep(KEPT) > 0.001 && Downhill(KEPT)
  {
    var e := EPS;
    KeptCoefficients(e);
    var z1, z2, z3 := BracketZ1(KEPT), BracketZ2(KEPT), BracketZ3(KEPT);
    var ee := KeptSizes(e, z1, z2, z3);
    hide Z1, Z2, Z3, BracketZ1, BracketZ2, BracketZ3;
    KeptNear(e, z1, z2, z3);
    KeptPoint();
    var far := -0.5 * z1 / z2;
    QuotientBack(z2, -0.5 * z1, far);
    FarTurn(e, ee, z1, z2, far);
    var p := Positive(z2, e);
    assert Length(KEPT) == e;
  }

  lemma KeptNear(e: real, z1: real, z2: real, z3: real)
    requires e == EPS && 0.0 < z3 < e * -z1 && z1 < 0.0
    ensures Near(z1, z2, z3)
  {
  }

  lemma KeptPoint()
    ensures QuadMin3(1.0, 1.0 + EPS, -1.0, -1.0, -1.0 + EPS) == Num(1.0 + 0.25 * EPS)
  {
    assert Quotient(0.5 * EPS * -1.0, -1.0 - (-1.0 + EPS) + EPS * -1.0) == Num(0.25);
  }

  lemma FarTurn(e: real, ee: real, z1: real, z2: real, far: real)
    requires 0.0 < e < 0.001 && ee == e * e > 0.0 && 1.9 * ee < z2 <= 2.0 * ee && -0.5 * z1 - z2 >= 4.2 * (e * ee)
    requires far * z2 == -0.5 * z1
    ensures far >= 1.0 + 1.75 * e
  {
    if far < 1.0 + 1.75 * e {
      var p := Positive(1.0 + 1.75 * e - far, z2);
      var q := Positive(e, ee);
      assert 1.75 * e * z2 <= 3.5 * q by { NotNegative(e, 2.0 * ee - z2); }
    }
  }

  /** After a first trial that goes down, one at stepMax is too high; cubicMin takes its
      cubic for a quadratic, and the exit goes back to the first trial but reports the
      second one's value. */
  lemma ExitKeepsTheTrial(root: Root)
    requires IsRoot(root)
    ensures var e := Kept(root);
            && Sane(e.r) && Search(e) == Stop(1.0, e.value(1.0 + EPS)) && e.value(1.0 + EPS) > e.value(1.0)
  {
    var e := Kept(root);
    var ls := Opening(e.r).(iter := 0);
    hide Select, Loop, Search, Body, IsRoot;
    assert ls == Ls(1.0, 0, 0.0, Infinite, 0.0, Infinite, -0.75, Infinite, 0.0, -1.0);
    FirstTrialOf(e);
    var next := Ls(1.0 + EPS, 0, 1.0, Infinite, -1.0, Infinite, -1.0, Infinite, -1.25, -1.25);
    KeptFirstPass(e.r, ls);
    var f, g := -1.0 + EPS - 0.25 * (1.0 + EPS), 2.75 + 2.5 * (EPS * EPS);
    assert e.value(1.0 + EPS) == f && e.slope(1.0 + EPS) == g;
    KeptSecondPass(e.r, next.(iter := 1), f, g);
    GoLoop(e, ls, -1.25, -1.25, next, f, g);
    RestoreLoop(e, next.(iter := 1), f, g);
  }

  lemma KeptFirstPass(r: Rules, ls: Ls)
    requires r == RulesWith(r.root, 0.001, 1.0 + EPS) && ls == Ls(1.0, 0, 0.0, Infinite, 0.0, Infinite, -0.75, Infinite, 0.0, -1.0)
    ensures Body(r, ls, -1.25, -1.25) == Go(Ls(1.0 + EPS, 0, 1.0, Infinite, -1.0, Infinite, -1.0, Infinite, -1.25, -1.25))
  {
    hide Select;
    assert Aux(r, 1.0, -1.25) == -1.0 && Tilted(r, -1.25) == -1.0;
  }

  lemma KeptSecondPass(r: Rules, ls: Ls, f: real, g: real)
    requires IsRoot(r.root) && r == RulesWith(r.root, 0.001, 1.0 + EPS)
    requires ls == Ls(1.0 + EPS, 1, 1.0, Infinite, -1.0, Infinite, -1.0, Infinite, -1.25, -1.25)
    requires f == -1.0 + EPS - 0.25 * (1.0 + EPS) && g == 2.75 + 2.5 * (EPS * EPS)
    ensures Body(r, ls, f, g).Restore? && Body(r, ls, f, g).ls.iLo == 1.0
    ensures !TakesLo(r, ls, f) && !StrongWolfe(r, ls.step, f, g)
  {
    KeptOvershoots();
    FartherStep(r.root, KEPT);
    OvershootIsMean(r.root, KEPT);
    hide Select, Overshoots, MeanStep, Downhill, IsRoot, Plain, Loses;
    assert Aux(r, ls.step, f) == -1.0 + EPS && Tilted(r, g) == 3.0 + 2.5 * (EPS * EPS);
    assert BracketAt(r, ls, f, g) == KEPT;
    HighRestores(r, ls, f, g, KEPT);
  }

  /** The line's value and slope at a step. */
  predicate Reads(e: Env, x: real, f: real, g: real) {
    e.value(x) == f && e.slope(x) == g
  }

  lemma GoLoop(e: Env, ls: Ls, f: real, g: real, next: Ls, f': real, g': real)
    requires ls.iter < e.r.p.maxLinesearch && Body(e.r, ls, f, g) == Go(next) && Reads(e, next.step, f', g')
    requires !StrongWolfe(e.r, next.step, f', g') && !(next.step >= e.r.line.stepMax && TakesLo(e.r, next, f'))
    ensures Loop(e, ls, f, g) == Loop(e, next.(iter := ls.iter + 1), f', g')
  {
    hide Body, StrongWolfe, TakesLo;
  }

  lemma RestoreLoop(e: Env, ls: Ls, f: real, g: real)
    requires ls.iter < e.r.p.maxLinesearch && Body(e.r, ls, f, g).Restore?
    ensures Loop(e, ls, f, g) == Stop(Body(e.r, ls, f, g).ls.iLo, f)
  {
    hide Body;
  }

  // --- a negative minimum step --------------------------------------------------------------

  /** The step behind the start that is tried, the trial before it, and that trial's slope. */
  function Behind(minStep: real): real { if minStep < -0.05 then -0.05 else minStep }
  function Turned(t: real): real { (1.1 + t) / 2.1 }
  function Climb(s: real): real requires s != 0.0 { 0.75 * (1.0 - s) / s }

  function Retreat(root: Root, minStep: real, t: real, s: real, h: real): Env {
    Env(RulesWith(root, minStep, 2.0),
        x => if x == 0.0 then 0.0 else if x == 1.0 then -0.25 + (h - 0.75) / 2.0 else if x == s then -0.25 * s - 1.0 else -0.125 * x,
        x => if x == 0.0 then -1.0 else if x == 1.0 then h - 0.25 else if x == s then 0.75 else 0.0)
  }

  function Retreating(h: real): Bracket {
    Bracket(0.0, Infinite, 1.0, 0.0, Infinite, (h - 0.75) / 2.0, -0.75, Infinite, h)
  }

  predicate Meets(s: real, h: real) {
    0.55 < h <= 0.75 && s * (h + 0.75) == 0.75
  }

  lemma RetreatNumbers(minStep: real) returns (t: real, s: real, h: real)
    requires minStep < 0.0
    ensures t == Behind(minStep) && s == Turned(t) && s != 0.0 && h == Climb(s)
    ensures minStep <= t < 0.0 && t >= -0.05 && 0.49 < s < 0.6 && s + 1.1 * (s - 1.0) == t
    ensures 0.55 < h <= 0.75 && Meets(s, h)
  {
    t := Behind(minStep);
    s := Turned(t);
    h := Climb(s);
    QuotientBack(s, 0.75 * (1.0 - s), h);
    assert s >= 0.5;
    if h > 0.75 { var p := Positive(h - 0.75, s); }
    if h <= 0.55 { NotNegative(0.55 - h, s); }
  }

  lemma RetreatingTurn(root: Root, s: real, h: real)
    requires 0.55 < h <= 0.75 && Meets(s, h)
    ensures Select(root, Retreating(h)) == Num(s)
  {
    var b := Retreating(h);
    RetreatingCoefficients(h);
    var z1, z2 := BracketZ1(b), BracketZ2(b);
    NearCubic(root, b);
    var x := -0.5 * z1 / z2;
    QuotientBack(z2, -0.5 * z1, x);
    SameQuotient(x, s, h + 0.75);
    var w := -0.75 / (-0.75 - h);
    QuotientBack(-0.75 - h, -0.75, w);
    SameQuotient(w, s, h + 0.75);
    hide Z1, Z2, Z3, Near, BracketZ1, BracketZ2, BracketZ3, CubicMin, QuadMin3;
    assert h * -0.75 < 0.0;
    assert QuadMin2(0.0, 1.0, -0.75, h) == Num(s);
  }

  lemma SameQuotient(x: real, s: real, k: real)
    requires k > 0.0 && x * k == 0.75 && s * k == 0.75
    ensures x == s
  {
    Cancel(x, s, k);
  }

  lemma RetreatingCoefficients(h: real)
    requires 0.55 < h <= 0.75
    ensures var b := Retreating(h);
            NearQuadratic(b) && BracketZ2(b) == (h + 0.75) / 2.0 && BracketZ1(b) == -0.75 && Length(b) == 1.0
  {
    hide Z1, Z2, Slope;
    var b := Retreating(h);
    assert Length(b) == 1.0 && Start(b) == -0.75 && BracketZ3(b) == 0.0 && Middle(b) == (h + 0.75) / 2.0;
    BracketNormal(b);
  }

  /** A minimum step below 0, which nothing refuses, lets the search end behind the start
      at a point where f is higher. */
  lemma NegativeStepIncreases(root: Root, minStep: real) returns (e: Env, t: real)
    requires IsRoot(root) && minStep < 0.0
    ensures e.r.p.minStep == minStep && Sane(e.r) && e.value(0.0) == e.r.line.fxInit
    ensures t < 0.0 && Search(e) == Stop(t, e.value(t)) && e.value(t) > e.value(0.0)
  {
    var s, h;
    t, s, h := RetreatNumbers(minStep);
    e := Retreat(root, minStep, t, s, h);
    RetreatValues(root, minStep, t, s, h);
    assert e.value(t) == -0.125 * t;
    hide *;
    RetreatRuns(e, root, minStep, t, s, h);
  }

  lemma RetreatValues(root: Root, minStep: real, t: real, s: real, h: real)
    requires IsRoot(root) && t < 0.0 && 0.49 < s < 0.6
    ensures var e := Retreat(root, minStep, t, s, h);
            && e.r == RulesWith(root, minStep, 2.0) && e.r.p.minStep == minStep && Sane(e.r)
            && e.value(0.0) == 0.0 == e.r.line.fxInit && -0.125 * t > 0.0 && Reads(e, t, -0.125 * t, 0.0)
            && Reads(e, 1.0, -0.25 + (h - 0.75) / 2.0, h - 0.25) && Reads(e, s, -0.25 * s - 1.0, 0.75)
  {
    hide IsRoot;
  }

  lemma RetreatRuns(e: Env, root: Root, minStep: real, t: real, s: real, h: real)
    requires e.r == RulesWith(root, minStep, 2.0) && minStep <= t < 0.0 && t >= -0.05
    requires 0.49 < s < 0.6 && s + 1.1 * (s - 1.0) == t && 0.55 < h <= 0.75 && Meets(s, h)
    requires Reads(e, 1.0, -0.25 + (h - 0.75) / 2.0, h - 0.25) && Reads(e, s, -0.25 * s - 1.0, 0.75) && Reads(e, t, -0.125 * t, 0.0)
    ensures Search(e) == Stop(t, -0.125 * t)
  {
    hide *;
    var ls := Ls(1.0, 0, 0.0, Infinite, 0.0, Infinite, -0.75, Infinite, 0.0, -1.0);
    var f0, g0, f1, f2, lo := -0.25 + (h - 0.75) / 2.0, h - 0.25, -0.25 * s - 1.0, -0.125 * t, (h - 0.75) / 2.0;
    RetreatRules(root, minStep, h, f0, g0, t, s, f1);
    FirstTrialIs(e, ls, f0, g0);
    var ls1 := Ls(s, 0, 1.0, Fin(0.0), lo, Fin(0.0), h, Fin(-0.75), f0, g0);
    RetreatFirst(e.r, ls, t, s, h);
    GoLoop(e, ls, f0, g0, ls1, f1, 0.75);
    RetreatSecond(e.r, ls1.(iter := 1), t, s, h);
    WolfeLoop(e, ls1.(iter := 1), f1, 0.75, Ls(t, 1, s, Fin(0.0), -1.0, Fin(0.0), 1.0, Fin(-0.75), f1, 0.75), f2, 0.0);
  }

  lemma FirstTrialIs(e: Env, ls: Ls, f: real, g: real)
    requires ls == Opening(e.r).(iter := 0) && Reads(e, ls.step, f, g) && !StrongWolfe(e.r, ls.step, f, g)
    ensures Search(e) == Loop(e, ls, f, g)
  {
    hide Loop, StrongWolfe;
  }

  lemma RetreatRules(root: Root, minStep: real, h: real, f0: real, g0: real, t: real, s: real, f1: real)
    requires 0.55 < h <= 0.75 && f0 <= -0.25 && g0 == h - 0.25 && -0.05 <= t < 0.0 && 0.49 < s < 0.6 && f1 == -0.25 * s - 1.0
    ensures var r := RulesWith(root, minStep, 2.0);
            && Opening(r).(iter := 0) == Ls(1.0, 0, 0.0, Infinite, 0.0, Infinite, -0.75, Infinite, 0.0, -1.0)
            && r.p.maxLinesearch == 20 && r.line.stepMax == 2.0 && r.p.minStep == minStep && r.root == root
            && !StrongWolfe(r, 1.0, f0, g0) && !StrongWolfe(r, s, f1, 0.75) && StrongWolfe(r, t, -0.125 * t, 0.0)
  {
  }

  lemma RetreatFirst(r: Rules, ls: Ls, t: real, s: real, h: real)
    requires r == RulesWith(r.root, r.p.minStep, 2.0) && r.p.minStep <= t < 0.0 && 0.49 < s < 0.6
    requires 0.55 < h <= 0.75 && Meets(s, h)
    requires ls == Ls(1.0, 0, 0.0, Infinite, 0.0, Infinite, -0.75, Infinite, 0.0, -1.0)
    ensures Body(r, ls, -0.25 + (h - 0.75) / 2.0, h - 0.25) ==
            Go(Ls(s, 0, 1.0, Fin(0.0), (h - 0.75) / 2.0, Fin(0.0), h, Fin(-0.75), -0.25 + (h - 0.75) / 2.0, h - 0.25))
  {
    RetreatingTurn(r.root, s, h);
    hide Select;
    assert Aux(r, 1.0, -0.25 + (h - 0.75) / 2.0) == (h - 0.75) / 2.0 && Tilted(r, h - 0.25) == h;
    assert BracketAt(r, ls, -0.25 + (h - 0.75) / 2.0, h - 0.25) == Retreating(h);
  }

  lemma RetreatSecond(r: Rules, ls: Ls, t: real, s: real, h: real)
    requires r == RulesWith(r.root, r.p.minStep, 2.0) && r.p.minStep <= t < 0.0 && 0.49 < s < 0.6 && s + 1.1 * (s - 1.0) == t
    requires 0.55 < h <= 0.75
    requires ls == Ls(s, 1, 1.0, Fin(0.0), (h - 0.75) / 2.0, Fin(0.0), h, Fin(-0.75), -0.25 + (h - 0.75) / 2.0, h - 0.25)
    ensures Body(r, ls, -0.25 * s - 1.0, 0.75) == Go(Ls(t, 1, s, Fin(0.0), -1.0, Fin(0.0), 1.0, Fin(-0.75), -0.25 * s - 1.0, 0.75))
  {
    hide Select;
    assert Aux(r, s, -0.25 * s - 1.0) == -1.0 && Tilted(r, 0.75) == 1.0;
  }

  lemma WolfeLoop(e: Env, ls: Ls, f: real, g: real, next: Ls, f': real, g': real)
    requires ls.iter < e.r.p.maxLinesearch && Body(e.r, ls, f, g) == Go(next) && Reads(e, next.step, f', g')
    requires StrongWolfe(e.r, next.step, f', g')
    ensures Loop(e, ls, f, g) == Stop(next.step, f')
  {
    hide Body, StrongWolfe, TakesLo;
  }
}
