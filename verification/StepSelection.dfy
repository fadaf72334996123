/** lbfgsb: the trial step a bracket suggests, by quadratic and cubic interpolation.

    The slope of the cubic through a bracket's ends is a quadratic along the bracket, moved
    to 0..1: below 0 at the lower end and, for a trial that is too high or climbs, above 0
    somewhere before it.  The root cubicMin picks by the sign of z3 (b - a) is the turn in
    between.  What goes wrong is its tolerance, which takes some cubics for quadratics, and
    a division by zero where the inflection is at step 0. */
module StepSelection {

  /** A bracket end may still be at infinity. */
  datatype Ext = Fin(value: real) | Infinite

  /** What step selection is given: the bracket ends and the trial, each with its
      auxiliary value and slope. */
  datatype Bracket = Bracket(al: real, au: Ext, at: real, fl: real, fu: Ext, ft: real, gl: real, gu: Ext, gt: real)

  /** A computed step. Over the reals only a division by zero leads away from numbers. */
  datatype Step = Num(x: real) | PlusInfinity | NotANumber

  /** cubicMin's answer, and what it says of its existence. */
  datatype Cubic = Cubic(at: Step, found: bool)

  /** The machine epsilon of double. */
  const EPS: real := 1.0 / 4503599627370496.0

  function Abs(a: real): (r: real)
    ensures r >= 0.0 && (r == a || r == -a)
  {
    if a < 0.0 then -a else a
  }

  function Min(a: real, b: real): real { if b < a then b else a }
  function Max(a: real, b: real): real { if a < b then b else a }

  /** What computes square roots. */
  type Root = real -> real

  ghost predicate IsRoot(root: Root) {
    forall x :: x >= 0.0 ==> root(x) >= 0.0 && root(x) * root(x) == x
  }

  function Quotient(x: real, y: real): Step {
    if y == 0.0 then NotANumber else Num(x / y)
  }

  function QuadMin3(a: real, b: real, fa: real, ga: real, fb: real): Step {
    var ba := b - a;
    var w := Quotient(0.5 * ba * ga, fa - fb + ba * ga);
    if w.Num? then Num(a + w.x * ba) else NotANumber
  }

  function QuadMin2(a: real, b: real, ga: real, gb: real): Step {
    var w := Quotient(ga, ga - gb);
    if w.Num? then Num(a + w.x * (b - a)) else NotANumber
  }

  // The slope of the cubic through both ends, times (b - a)^3, is
  // 3 z3 x^2 + 2 z2 x + z1.

  function Z3(a: real, b: real, fa: real, fb: real, ga: real, gb: real): real {
    (ga + gb) * (b - a) - 2.0 * (fb - fa)
  }

  function Z2(a: real, b: real, fa: real, fb: real, ga: real, gb: real): real {
    0.5 * ((gb - ga) * ((b - a) * (b - a)) - 3.0 * (a + b) * Z3(a, b, fa, fb, ga, gb))
  }

  function Z1(a: real, b: real, fa: real, fb: real, ga: real, gb: real): real {
    (fb - fa) * ((b - a) * (b - a)) - (a + b) * Z2(a, b, fa, fb, ga, gb) - (a * (a + b) + b * b) * Z3(a, b, fa, fb, ga, gb)
  }

  /** The cubic is taken for a quadratic. */
  predicate Near(z1: real, z2: real, z3: real) {
    Abs(z3) < EPS * Abs(z2) || Abs(z3) < EPS * Abs(z1)
  }

  function CubicMin(root: Root, a: real, b: real, fa: real, fb: real, ga: real, gb: real): Cubic {
    CubicOf(root, b, b - a, Z1(a, b, fa, fb, ga, gb), Z2(a, b, fa, fb, ga, gb), Z3(a, b, fa, fb, ga, gb))
  }

  function CubicOf(root: Root, b: real, ba: real, z1: real, z2: real, z3: real): Cubic {
    if Near(z1, z2, z3) then
      if z2 * ba > 0.0 then Cubic(Num(-0.5 * z1 / z2), true) else Cubic(Num(b), false)
    else if z2 == 0.0 then
      // u is zero and v infinite: with real roots, zero times infinity
      if z1 * z3 < 0.0 then Cubic(NotANumber, true) else Cubic(Num(b), false)
    else
      NotNearHasZ3(z1, z2, z3);
      var u, v := z2 / (3.0 * z3), z1 / z2;
      if v / u > 1.0 then Cubic(Num(b), false)
      else
        var r1, r2 := Root1(root, u, v), Root2(root, u, v);
        Cubic(Num(if z3 * ba > 0.0 then Max(r1, r2) else Min(r1, r2)), true)
  }

  lemma NotNearHasZ3(z1: real, z2: real, z3: real)
    requires !Near(z1, z2, z3) && z2 != 0.0
    ensures z3 != 0.0 && z2 / (3.0 * z3) != 0.0
  {
    if z3 != 0.0 {
      assert z2 / (3.0 * z3) * (3.0 * z3) == z2;
    }
  }

  // The roots of x^2 + 2 u x + u v.

  function Root1(root: Root, u: real, v: real): real
    requires u != 0.0
  {
    if Abs(u) >= Abs(v) then NearRoot1(u, 1.0 + root(1.0 - v / u)) else -u - HalfGap(root(Abs(u)), root(Abs(v)), root(1.0 - u / v))
  }

  function Root2(root: Root, u: real, v: real): real
    requires u != 0.0
  {
    if Abs(u) >= Abs(v) then NearRoot2(v, 1.0 + root(1.0 - v / u)) else -u + HalfGap(root(Abs(u)), root(Abs(v)), root(1.0 - u / v))
  }

  function NearRoot1(u: real, w: real): real { -u * w }
  // 1 + a root is never 0.
  function NearRoot2(v: real, w: real): real { if w == 0.0 then 0.0 else -v / w }
  function HalfGap(x: real, y: real, z: real): real { x * y * z }

  // Comparisons as IEEE makes them: false where a side is not a number.

  function Distance(s: Step, x: real): Step {
    match s
    case Num(y) => Num(Abs(y - x))
    case _ => s
  }

  predicate Less(s: Step, t: Step) {
    match (s, t)
    case (Num(x), Num(y)) => x < y
    case (Num(_), PlusInfinity) => true
    case _ => false
  }

  predicate NotLess(s: Step, t: Step) {
    match (s, t)
    case (Num(x), Num(y)) => x >= y
    case (PlusInfinity, Num(_)) => true
    case (PlusInfinity, PlusInfinity) => true
    case _ => false
  }

  function Average(s: Step, t: Step): Step {
    if s.Num? && t.Num? then Num((s.x + t.x) / 2.0) else NotANumber
  }

  /** at + 0.66 (au - at) */
  function Towards(at: real, au: Ext): Step {
    if au.Fin? then Num(at + 0.66 * (au.value - at)) else PlusInfinity
  }

  /** std::min and std::max, which keep their first argument unless the second is proved
      smaller or larger. */
  function Lower(s: Step, t: Step): Step {
    if Less(t, s) then t else s
  }

  function Upper(s: Step, t: Step): Step {
    if Less(s, t) then t else s
  }

  function Select(root: Root, b: Bracket): Step {
    if b.au == Fin(b.al) then Num(b.al)
    else
      var ac := CubicMin(root, b.al, b.at, b.fl, b.ft, b.gl, b.gt);
      if b.ft > b.fl then Farther(b, ac, QuadMin3(b.al, b.at, b.fl, b.gl, b.ft))
      else Nearer(root, b, ac, QuadMin2(b.al, b.at, b.gl, b.gt))
  }

  /** The trial is too high. */
  function Farther(b: Bracket, ac: Cubic, aq: Step): Step {
    if !ac.found then aq
    else if Less(Distance(ac.at, b.al), Distance(aq, b.al)) then ac.at
    else Average(aq, ac.at)
  }

  /** The trial is low enough. */
  function Nearer(root: Root, b: Bracket, ac: Cubic, secant: Step): Step {
    if b.gt * b.gl < 0.0 then
      if NotLess(Distance(ac.at, b.at), Distance(secant, b.at)) then ac.at else secant
    else if Abs(b.gt) < Abs(b.gl) then
      var res := if ac.found && ac.at.Num? && (ac.at.x - b.at) * (b.at - b.al) > 0.0 && Less(Distance(ac.at, b.at), Distance(secant, b.at)) then ac.at
                 else secant;
      if b.at > b.al then Lower(Towards(b.at, b.au), res) else Upper(Towards(b.at, b.au), res)
    else if b.au.Infinite? || b.fu.Infinite? || b.gu.Infinite? then Num(b.at + 1.1 * (b.at - b.al))
    else
      var ae := CubicMin(root, b.at, b.au.value, b.ft, b.fu.value, b.gt, b.gu.value);
      if b.at > b.al then Lower(Towards(b.at, b.au), ae.at) else Upper(Towards(b.at, b.au), ae.at)
  }

  // --- the cubic, with the bracket moved to 0..1 ----------------------------------------

  /** The slope of the interpolant at a + t (b - a), times b - a. */
  function Slope(c: real, m: real, n: real, t: real): real {
    3.0 * c * (t * t) + 2.0 * m * t + n
  }

  /** z1 and z2 in terms of the slope along the bracket. */
  predicate Coefficients(a: real, d: real, c: real, m: real, n: real, z1: real, z2: real) {
    z2 == m * d - 3.0 * c * a && z1 == 3.0 * c * (a * a) - 2.0 * (m * d) * a + n * (d * d)
  }

  lemma Normal(a: real, b: real, d: real, fa: real, fb: real, ga: real, gb: real, c: real, m: real, n: real)
    requires b == a + d && n == ga * d && c == (ga + gb) * d - 2.0 * (fb - fa) && m == fb - fa - c - n
    ensures Z3(a, b, fa, fb, ga, gb) == c
    ensures Coefficients(a, d, c, m, n, Z1(a, b, fa, fb, ga, gb), Z2(a, b, fa, fb, ga, gb))
    ensures Slope(c, m, n, 0.0) == n && Slope(c, m, n, 1.0) == gb * d
    ensures Slope(c, m, n, 2.0 / 3.0) == (4.0 * (fb - fa) - n) / 3.0
  {
    assert b - a == d && a + b == 2.0 * a + d;
    assert (gb - ga) * (d * d) == (gb * d - ga * d) * d;
    var z2 := Z2(a, b, fa, fb, ga, gb);
    assert z2 == m * d - 3.0 * c * a;
  }

  /** 3 z3 x^2 + 2 z2 x + z1 has two real roots. */
  predicate Crosses(z3: real, z1: real, z2: real) {
    z2 * z2 - 3.0 * z3 * z1 > 0.0
  }

  /** The point t along a bracket of length d from a. */
  function At(a: real, d: real, t: real): real {
    a + t * d
  }

  /** A slope that turns from down to up has two roots. */
  lemma TurnHasRoots(c: real, m: real, n: real, tau: real)
    requires n < 0.0 && 0.0 < tau && Slope(c, m, n, tau) > 0.0
    ensures m * m - 3.0 * c * n > 0.0
  {
    if c > 0.0 {
      assert c * n < 0.0;
      assert m * m >= 0.0;
    } else if c == 0.0 {
      assert 2.0 * m * tau > 0.0;
      assert m != 0.0;
    } else {
      var q := 3.0 * c * tau + m;
      assert q * q >= 0.0;
      assert 3.0 * c * Slope(c, m, n, tau) == q * q - (m * m - 3.0 * c * n);
      Negative(3.0 * c, Slope(c, m, n, tau));
    }
  }

  lemma NotNegative(x: real, y: real)
    requires x >= 0.0 && y >= 0.0
    ensures x * y >= 0.0
  {
  }

  lemma Negative(x: real, y: real)
    requires x < 0.0 && y > 0.0
    ensures x * y < 0.0
  {
  }

  lemma Discriminant(a: real, d: real, c: real, m: real, n: real)
    ensures var z1, z2 := 3.0 * c * (a * a) - 2.0 * (m * d) * a + n * (d * d), m * d - 3.0 * c * a;
            z2 * z2 - 3.0 * c * z1 == d * d * (m * m - 3.0 * c * n)
  {
    var md := m * d;
    assert md * md == d * d * (m * m);
    assert c * (n * (d * d)) == d * d * (c * n);
  }

  lemma RootOf(root: Root, x: real) returns (s: real)
    requires IsRoot(root) && x >= 0.0
    ensures s == root(x) && s >= 0.0 && s * s == x
  {
    s := root(x);
  }

  lemma RootsOf(root: Root, u: real, v: real) returns (r1: real, r2: real)
    requires IsRoot(root) && u != 0.0 && v / u <= 1.0
    ensures r1 == Root1(root, u, v) && r2 == Root2(root, u, v)
    ensures r1 + r2 == -2.0 * u && r1 * r2 == u * v
  {
    hide *;
    if Abs(u) >= Abs(v) {
      var s := RootOf(root, 1.0 - v / u);
      r1, r2 := NearRoots(root, u, v, s);
    } else {
      r1, r2 := FarSide(root, u, v);
    }
  }

  lemma FarSide(root: Root, u: real, v: real) returns (r1: real, r2: real)
    requires IsRoot(root) && u != 0.0 && v / u <= 1.0 && Abs(u) < Abs(v)
    ensures r1 == Root1(root, u, v) && r2 == Root2(root, u, v)
    ensures r1 + r2 == -2.0 * u && r1 * r2 == u * v
  {
    var q := v / u;
    QuotientBack(u, v, q);
    FarApart(u, v, q);
    hide *;
    var x := RootOf(root, Abs(u));
    var y := RootOf(root, Abs(v));
    var p := u / v;
    var z := RootOf(root, 1.0 - p);
    r1, r2 := FarRoots(root, u, v, x, y, z);
  }

  lemma NearRoots(root: Root, u: real, v: real, s: real) returns (r1: real, r2: real)
    requires u != 0.0 && Abs(u) >= Abs(v) && s == root(1.0 - v / u) && s >= 0.0 && s * s == 1.0 - v / u
    ensures r1 == Root1(root, u, v) && r2 == Root2(root, u, v)
    ensures r1 + r2 == -2.0 * u && r1 * r2 == u * v
  {
    r1, r2 := NearValues(root, u, v, s);
    hide *;
    var q := v / u;
    QuotientBack(u, v, q);
    NearPair(u, v, q, s, 1.0 + s, r1, r2);
  }

  lemma NearValues(root: Root, u: real, v: real, s: real) returns (r1: real, r2: real)
    requires u != 0.0 && Abs(u) >= Abs(v) && s == root(1.0 - v / u) && s >= 0.0
    ensures r1 == Root1(root, u, v) && r2 == Root2(root, u, v)
    ensures r1 == NearRoot1(u, 1.0 + s) && r2 == NearRoot2(v, 1.0 + s)
  {
    hide IsRoot, NearRoot1, NearRoot2;
    r1, r2 := Root1(root, u, v), Root2(root, u, v);
  }

  lemma QuotientBack(u: real, v: real, q: real)
    requires u != 0.0 && q == v / u
    ensures q * u == v
  {
  }

  lemma NearPair(u: real, v: real, q: real, s: real, w: real, r1: real, r2: real)
    requires q * u == v && s * s == 1.0 - q && w == 1.0 + s && s >= 0.0
    requires r1 == NearRoot1(u, w) && r2 == NearRoot2(v, w)
    ensures r1 + r2 == -2.0 * u && r1 * r2 == u * v
  {
    QuotientBack(w, -v, r2);
    FactorSmall(u, v, q, s, w, r2);
  }

  lemma FarRoots(root: Root, u: real, v: real, x: real, y: real, z: real) returns (r1: real, r2: real)
    requires u != 0.0 && v != 0.0 && Abs(u) < Abs(v) && u * v < 0.0
    requires x == root(Abs(u)) && y == root(Abs(v)) && z == root(1.0 - u / v)
    requires x * x == Abs(u) && y * y == Abs(v) && z * z == 1.0 - u / v
    ensures r1 == Root1(root, u, v) && r2 == Root2(root, u, v)
    ensures r1 + r2 == -2.0 * u && r1 * r2 == u * v
  {
    r1, r2 := FarValues(root, u, v, x, y, z);
    hide *;
    var p := u / v;
    QuotientBack(v, u, p);
    FarPair(u, v, p, x, y, z, Abs(u), Abs(v), r1, r2);
  }

  lemma FarValues(root: Root, u: real, v: real, x: real, y: real, z: real) returns (r1: real, r2: real)
    requires u != 0.0 && v != 0.0 && Abs(u) < Abs(v)
    requires x == root(Abs(u)) && y == root(Abs(v)) && z == root(1.0 - u / v)
    ensures r1 == Root1(root, u, v) && r2 == Root2(root, u, v)
    ensures r1 == -u - HalfGap(x, y, z) && r2 == -u + HalfGap(x, y, z)
  {
    hide IsRoot, HalfGap;
    r1, r2 := Root1(root, u, v), Root2(root, u, v);
  }

  lemma FarPair(u: real, v: real, p: real, x: real, y: real, z: real, xx: real, yy: real, r1: real, r2: real)
    requires p * v == u && u * v < 0.0 && xx == Abs(u) && yy == Abs(v) && x * x == xx && y * y == yy && z * z == 1.0 - p
    requires r1 == -u - HalfGap(x, y, z) && r2 == -u + HalfGap(x, y, z)
    ensures r1 + r2 == -2.0 * u && r1 * r2 == u * v
  {
    ThreeRoots(x, y, z, xx, yy, 1.0 - p);
    ProductOfSigns(u, v, p);
    Conjugates(u, u * u - u * v, HalfGap(x, y, z), r1, r2);
  }

  lemma Conjugates(u: real, hh: real, h: real, r1: real, r2: real)
    requires h * h == hh && r1 == -u - h && r2 == -u + h
    ensures r1 + r2 == -2.0 * u && r1 * r2 == u * u - hh
  {
  }

  lemma FactorSmall(u: real, v: real, q: real, s: real, w: real, r2: real)
    requires q * u == v && s * s == 1.0 - q && w == 1.0 + s && r2 * w == -v && s >= 0.0
    ensures -u * w + r2 == -2.0 * u && (-u * w) * r2 == u * v
  {
    assert (1.0 - s) * w == q;
    assert (1.0 - s) * w * u == v;
    assert (r2 + (1.0 - s) * u) * w == 0.0;
    assert r2 == -(1.0 - s) * u;
    assert (-u * w) * r2 == -u * (r2 * w);
  }

  /** The larger is v, so the quotient that is at most 1 is negative. */
  lemma FarApart(u: real, v: real, q: real)
    requires u != 0.0 && q * u == v && q <= 1.0 && Abs(u) < Abs(v)
    ensures v != 0.0 && q < 0.0 && u * v < 0.0 && u / v < 0.0
  {
    if q >= 0.0 {
      Shrinks(q, u, v);
    }
    assert u * v == q * (u * u);
    assert u * u > 0.0;
    Negative(q, u * u);
    var p := u / v;
    assert p * v == u;
    assert p * (v * v) == u * v;
    assert v * v > 0.0;
    if p >= 0.0 { NotNegative(p, v * v); }
  }

  lemma Shrinks(q: real, u: real, v: real)
    requires 0.0 <= q <= 1.0 && q * u == v
    ensures Abs(v) <= Abs(u)
  {
    if u >= 0.0 { TimesWithin(q, u, v); } else { TimesWithin(q, -u, -v); }
  }

  lemma TimesWithin(q: real, x: real, p: real)
    requires 0.0 <= q <= 1.0 && x >= 0.0 && p == q * x
    ensures 0.0 <= p <= x
  {
    NotNegative(q, x);
    NotNegative(1.0 - q, x);
    assert (1.0 - q) * x == x - q * x;
  }

  lemma ThreeRoots(x: real, y: real, z: real, xx: real, yy: real, zz: real)
    requires x * x == xx && y * y == yy && z * z == zz
    ensures (x * y * z) * (x * y * z) == xx * yy * zz
  {
    assert (x * y * z) * (x * y * z) == (x * x) * (y * y) * (z * z);
  }

  lemma ProductOfSigns(u: real, v: real, p: real)
    requires u * v < 0.0 && p * v == u
    ensures Abs(u) * Abs(v) * (1.0 - p) == u * u - u * v
  {
    assert Abs(u) * Abs(v) == -(u * v);
    assert (u * v) * p == u * (p * v);
  }

  /** Of the two roots, the one where the slope turns from down to up lies in between. */
  lemma TurnInside(c: real, m: real, n: real, tau: real, t1: real, t2: real)
    requires n < 0.0 && 0.0 < tau && Slope(c, m, n, tau) > 0.0 && c != 0.0
    requires 3.0 * c * (t1 + t2) == -2.0 * m && 3.0 * c * (t1 * t2) == n
    ensures 0.0 < (if c > 0.0 then Max(t1, t2) else Min(t1, t2)) < tau
  {
    var lo, hi := Min(t1, t2), Max(t1, t2);
    var c3 := 3.0 * c;
    assert lo * hi == t1 * t2 && lo + hi == t1 + t2;
    Factors(c3, m, n, tau, lo, hi, Slope(c, m, n, tau));
    SignsOf(c3, n, lo, hi);
    SignsOf(-c3, -Slope(c, m, n, tau), tau - hi, tau - lo);
  }

  lemma Factors(c3: real, m: real, n: real, tau: real, lo: real, hi: real, q: real)
    requires c3 * (lo + hi) == -2.0 * m && c3 * (lo * hi) == n && q == c3 * (tau * tau) + 2.0 * m * tau + n
    ensures c3 * ((tau - hi) * (tau - lo)) == q
  {
    assert (tau - hi) * (tau - lo) == tau * tau - tau * (lo + hi) + lo * hi;
    assert c3 * (tau * (lo + hi)) == tau * (c3 * (lo + hi));
  }

  lemma SignsOf(c3: real, n: real, lo: real, hi: real)
    requires c3 * (lo * hi) == n < 0.0 && lo <= hi
    ensures c3 > 0.0 ==> lo < 0.0 < hi
    ensures c3 < 0.0 ==> lo > 0.0 || hi < 0.0
  {
    var p := lo * hi;
    if c3 > 0.0 {
      if p >= 0.0 { NotNegative(c3, p); }
      if lo >= 0.0 { NotNegative(lo, hi); }
      if hi <= 0.0 { NotNegative(-lo, -hi); }
    } else if c3 < 0.0 {
      if p <= 0.0 { NotNegative(-c3, -p); }
      if lo <= 0.0 && hi >= 0.0 { NotNegative(-lo, hi); }
    }
  }

  /** The roots of the slope, measured along the bracket. */
  lemma Along(a: real, d: real, c: real, m: real, n: real, z1: real, z2: real, r1: real, r2: real, t1: real, t2: real)
    requires d != 0.0 && Coefficients(a, d, c, m, n, z1, z2)
    requires 3.0 * c * (r1 + r2) == -2.0 * z2 && 3.0 * c * (r1 * r2) == z1
    requires r1 == At(a, d, t1) && r2 == At(a, d, t2)
    ensures 3.0 * c * (t1 + t2) == -2.0 * m && 3.0 * c * (t1 * t2) == n
  {
    hide Coefficients, At;
    var dd := Square(d);
    var s, q, t, tt := AlongParts(a, d, r1, r2, t1, t2, dd);
    AlongMeans(a, d, c, m, n, z1, z2, dd);
    AlongSum(a, d, 3.0 * c, m, z2, s, t);
    AlongProduct(a, d, 3.0 * c, m, n, z1, z2, s, q, tt, dd);
  }

  lemma AlongParts(a: real, d: real, r1: real, r2: real, t1: real, t2: real, dd: real) returns (s: real, q: real, t: real, tt: real)
    requires r1 == At(a, d, t1) && r2 == At(a, d, t2) && dd == d * d
    ensures s == r1 + r2 && q == r1 * r2 && t == t1 + t2 && tt == t1 * t2
    ensures s == 2.0 * a + t * d && tt * dd == q - a * s + a * a
  {
    s, q, t, tt := r1 + r2, r1 * r2, t1 + t2, t1 * t2;
  }

  lemma AlongMeans(a: real, d: real, c: real, m: real, n: real, z1: real, z2: real, dd: real)
    requires Coefficients(a, d, c, m, n, z1, z2) && dd == d * d
    ensures z2 == m * d - 3.0 * c * a && z1 == 3.0 * c * (a * a) - 2.0 * (m * d) * a + n * dd
  {
  }

  lemma AlongSum(a: real, d: real, c3: real, m: real, z2: real, s: real, t: real)
    requires d != 0.0 && z2 == m * d - c3 * a && c3 * s == -2.0 * z2 && s == 2.0 * a + t * d
    ensures c3 * t == -2.0 * m
  {
    assert c3 * s == 2.0 * (c3 * a) + (c3 * t) * d;
    assert (c3 * t) * d == (-2.0 * m) * d;
    Cancel(c3 * t, -2.0 * m, d);
  }

  lemma AlongProduct(a: real, d: real, c3: real, m: real, n: real, z1: real, z2: real, s: real, q: real, tt: real, dd: real)
    requires dd == d * d && dd != 0.0 && z2 == m * d - c3 * a && z1 == c3 * (a * a) - 2.0 * (m * d) * a + n * dd
    requires c3 * s == -2.0 * z2 && c3 * q == z1
    requires tt * dd == q - a * s + a * a
    ensures c3 * tt == n
  {
    var p := tt * dd;
    assert c3 * p == c3 * q - c3 * (a * s) + c3 * (a * a);
    assert c3 * (a * s) == a * (c3 * s) == -2.0 * (a * z2);
    assert a * z2 == (m * d) * a - c3 * (a * a);
    assert c3 * p == n * dd;
    CancelScaled(c3, tt, dd, n, p);
  }

  lemma CancelScaled(c3: real, tt: real, dd: real, n: real, p: real)
    requires p == tt * dd && c3 * p == n * dd && dd != 0.0
    ensures c3 * tt == n
  {
    var x := c3 * tt;
    assert x * dd == c3 * p;
    Cancel(x, n, dd);
  }

  lemma Square(d: real) returns (dd: real)
    requires d != 0.0
    ensures dd == d * d && dd > 0.0
  {
    if d > 0.0 {
      dd := Positive(d, d);
    } else {
      var e := -d;
      dd := Positive(e, e);
      assert e * e == d * d;
    }
  }

  lemma Cancel(x: real, y: real, d: real)
    requires x * d == y * d && d != 0.0
    ensures x == y
  {
    assert (x - y) * d == 0.0;
  }

  /** Where on the bracket a point lies. */
  lemma Place(a: real, d: real, x: real) returns (t: real)
    requires d != 0.0
    ensures x == At(a, d, t)
  {
    t := (x - a) / d;
  }

  /** The root picked by the sign of z3 (b - a) is the turning point. */
  lemma PickedRoot(a: real, d: real, c: real, r1: real, r2: real, t1: real, t2: real, x: real, t: real)
    requires d != 0.0 && c != 0.0 && r1 == At(a, d, t1) && r2 == At(a, d, t2)
    requires x == (if c * d > 0.0 then Max(r1, r2) else Min(r1, r2)) && t == if c > 0.0 then Max(t1, t2) else Min(t1, t2)
    ensures x == At(a, d, t)
  {
    if d > 0.0 {
      if t1 <= t2 { NotNegative(t2 - t1, d); } else { NotNegative(t1 - t2, d); }
      if c > 0.0 { assert c * d > 0.0; } else { Negative(c, d); }
    } else {
      if t1 <= t2 { NotNegative(t2 - t1, -d); } else { NotNegative(t1 - t2, -d); }
      if c > 0.0 { Negative(d, c); } else { assert (-c) * (-d) > 0.0; }
    }
  }

  /** Over a stretch 0..tau of the bracket on which the slope turns from down to up,
      cubicMin finds the turn. It says so, and gives a step inside the stretch unless
      the cubic is taken for a quadratic or its inflection is at step 0. */
  lemma CubicTurns(root: Root, a: real, d: real, c: real, m: real, n: real, tau: real, z1: real, z2: real) returns (t: real)
    requires IsRoot(root) && d != 0.0 && n < 0.0 && 0.0 < tau && Slope(c, m, n, tau) > 0.0
    requires Coefficients(a, d, c, m, n, z1, z2)
    requires !Near(z1, z2, c)
    ensures var ac := CubicOf(root, a + d, d, z1, z2, c);
            && ac.found && !ac.at.PlusInfinity? && (ac.at.NotANumber? <==> z2 == 0.0)
            && (ac.at.Num? ==> 0.0 < t < tau && ac.at.x == At(a, d, t))
  {
    hide *;
    RealRoots(a, d, c, m, n, tau, z1, z2);
    t := 0.0;
    if z2 == 0.0 {
      InflectionAtZero(root, a + d, d, z1, z2, c);
    } else {
      t := TurnOf(root, a, d, c, m, n, tau, z1, z2);
    }
  }

  lemma RealRoots(a: real, d: real, c: real, m: real, n: real, tau: real, z1: real, z2: real)
    requires d != 0.0 && n < 0.0 && 0.0 < tau && Slope(c, m, n, tau) > 0.0
    requires Coefficients(a, d, c, m, n, z1, z2)
    ensures Crosses(c, z1, z2)
  {
    TurnHasRoots(c, m, n, tau);
    Discriminant(a, d, c, m, n);
    var dd := Square(d);
    var gap := Positive(dd, m * m - 3.0 * c * n);
  }

  lemma InflectionAtZero(root: Root, b: real, ba: real, z1: real, z2: real, c: real)
    requires z2 == 0.0 && Crosses(c, z1, z2) && !Near(z1, z2, c)
    ensures CubicOf(root, b, ba, z1, z2, c) == Cubic(NotANumber, true)
  {
    hide Near, IsRoot;
    assert 3.0 * (z1 * c) < 0.0;
  }

  lemma Positive(x: real, y: real) returns (p: real)
    requires x > 0.0 && y > 0.0
    ensures p == x * y && p > 0.0
  {
    p := x * y;
  }

  lemma TurnOf(root: Root, a: real, d: real, c: real, m: real, n: real, tau: real, z1: real, z2: real) returns (t: real)
    requires IsRoot(root) && d != 0.0 && n < 0.0 && 0.0 < tau && Slope(c, m, n, tau) > 0.0
    requires Coefficients(a, d, c, m, n, z1, z2)
    requires !Near(z1, z2, c) && z2 != 0.0 && Crosses(c, z1, z2)
    ensures 0.0 < t < tau && CubicOf(root, a + d, d, z1, z2, c) == Cubic(Num(At(a, d, t)), true)
  {
    hide Coefficients, Crosses, Slope, IsRoot, Near, CubicOf, At, Root1, Root2;
    NotNearHasZ3(z1, z2, c);
    var u, v := z2 / (3.0 * c), z1 / z2;
    var q := v / u;
    QuotientBack(3.0 * c, z2, u);
    QuotientBack(z2, z1, v);
    QuotientBack(u, v, q);
    AtMostOne(c, z1, z2, u, v, q);
    var r1, r2 := RootsOf(root, u, v);
    ScaledRoots(c, z1, z2, u, v, r1, r2);
    var t1 := Place(a, d, r1);
    var t2 := Place(a, d, r2);
    Along(a, d, c, m, n, z1, z2, r1, r2, t1, t2);
    TurnInside(c, m, n, tau, t1, t2);
    t := if c > 0.0 then Max(t1, t2) else Min(t1, t2);
    var x := if c * d > 0.0 then Max(r1, r2) else Min(r1, r2);
    PickedRoot(a, d, c, r1, r2, t1, t2, x, t);
    CubicIsPicked(root, a + d, d, z1, z2, c, u, v, r1, r2, x);
  }

  lemma CubicIsPicked(root: Root, b: real, ba: real, z1: real, z2: real, z3: real, u: real, v: real, r1: real, r2: real, x: real)
    requires !Near(z1, z2, z3) && z2 != 0.0 && z3 != 0.0 && u == z2 / (3.0 * z3) && v == z1 / z2 && u != 0.0 && v / u <= 1.0
    requires r1 == Root1(root, u, v) && r2 == Root2(root, u, v)
    requires x == if z3 * ba > 0.0 then Max(r1, r2) else Min(r1, r2)
    ensures CubicOf(root, b, ba, z1, z2, z3) == Cubic(Num(x), true)
  {
    hide Near, Root1, Root2, IsRoot;
  }

  lemma AtMostOne(c: real, z1: real, z2: real, u: real, v: real, q: real)
    requires u * (3.0 * c) == z2 && v * z2 == z1 && q * u == v && z2 != 0.0 && Crosses(c, z1, z2)
    ensures q < 1.0
  {
    var zz := z2 * z2;
    assert q * zz == 3.0 * c * z1 by {
      assert q * zz == (q * u) * (3.0 * c) * z2;
      assert (v * (3.0 * c)) * z2 == 3.0 * c * (v * z2);
    }
    var positive := Square(z2);
    assert zz == positive;
    if q >= 1.0 { NotNegative(q - 1.0, zz); }
  }

  lemma ScaledRoots(c: real, z1: real, z2: real, u: real, v: real, r1: real, r2: real)
    requires u * (3.0 * c) == z2 && v * z2 == z1 && r1 + r2 == -2.0 * u && r1 * r2 == u * v
    ensures 3.0 * c * (r1 + r2) == -2.0 * z2 && 3.0 * c * (r1 * r2) == z1
  {
    assert 3.0 * c * (u * v) == (u * (3.0 * c)) * v;
  }

  // --- what a bracket suggests --------------------------------------------------------------

  /** The lower end's slope goes down towards the trial. */
  predicate Downhill(b: Bracket) {
    Start(b) < 0.0
  }

  function Length(b: Bracket): real { b.at - b.al }
  function Start(b: Bracket): real { b.gl * (b.at - b.al) }
  function Middle(b: Bracket): real { b.ft - b.fl - BracketZ3(b) - Start(b) }

  function BracketZ3(b: Bracket): real { Z3(b.al, b.at, b.fl, b.ft, b.gl, b.gt) }
  function BracketZ2(b: Bracket): real { Z2(b.al, b.at, b.fl, b.ft, b.gl, b.gt) }
  function BracketZ1(b: Bracket): real { Z1(b.al, b.at, b.fl, b.ft, b.gl, b.gt) }

  /** cubicMin takes the bracket's cubic for a quadratic. */
  predicate NearQuadratic(b: Bracket) {
    Near(BracketZ1(b), BracketZ2(b), BracketZ3(b))
  }

  /** cubicMin makes no error: what it takes for a quadratic is one. */
  predicate Plain(b: Bracket) {
    NearQuadratic(b) ==> BracketZ3(b) == 0.0
  }

  /** Strictly between the lower end and the trial. */
  predicate Between(b: Bracket, x: real) {
    if b.al < b.at then b.al < x < b.at else b.at < x < b.al
  }

  lemma InBetween(b: Bracket, t: real)
    requires 0.0 < t < 1.0 && b.al != b.at
    ensures Between(b, At(b.al, Length(b), t))
  {
    var d := b.at - b.al;
    if d > 0.0 {
      var p := Positive(t, d);
      var q := Positive(1.0 - t, d);
    } else {
      var p := Positive(t, -d);
      var q := Positive(1.0 - t, -d);
    }
  }

  lemma DownhillApart(b: Bracket)
    requires Downhill(b)
    ensures b.al != b.at
  {
  }

  /** A quadratic's turn. */
  lemma StraightTurn(root: Root, a: real, d: real, m: real, n: real, tau: real, z1: real, z2: real) returns (t: real)
    requires d != 0.0 && n < 0.0 && 0.0 < tau && Slope(0.0, m, n, tau) > 0.0
    requires Coefficients(a, d, 0.0, m, n, z1, z2)
    ensures Near(z1, z2, 0.0) && 0.0 < t < tau && CubicOf(root, a + d, d, z1, z2, 0.0) == Cubic(Num(At(a, d, t)), true)
  {
    var dd := Square(d);
    assert 2.0 * (m * tau) > -n;
    if m <= 0.0 { NotNegative(-m, tau); }
    var w := Positive(m, dd);
    assert z2 * d == w by { assert z2 == m * d; assert (m * d) * d == m * (d * d); }
    NotZeroEither(z2, d);
    t := -n / (2.0 * m);
    QuotientBack(2.0 * m, -n, t);
    StraightInside(m, n, tau, t);
    StraightRoot(a, d, m, n, z1, z2, t);
  }

  lemma NotZeroEither(x: real, y: real)
    requires x * y > 0.0
    ensures x != 0.0 && Abs(x) > 0.0
  {
  }

  lemma StraightInside(m: real, n: real, tau: real, t: real)
    requires m > 0.0 && n < 0.0 && t * (2.0 * m) == -n && 2.0 * (m * tau) > -n
    ensures 0.0 < t < tau
  {
    if t <= 0.0 { NotNegative(-t, m); }
    if t >= tau { NotNegative(t - tau, m); }
  }

  lemma StraightRoot(a: real, d: real, m: real, n: real, z1: real, z2: real, t: real)
    requires z2 != 0.0 && z2 == m * d && z1 == -2.0 * (m * d) * a + n * (d * d) && t * (2.0 * m) == -n
    ensures -0.5 * z1 / z2 == At(a, d, t)
  {
    var x := At(a, d, t);
    assert (t * d) * z2 == (t * (2.0 * m)) * (d * d) / 2.0;
    assert n * (d * d) == -(2.0 * ((t * d) * z2));
    assert -0.5 * z1 == x * z2;
  }

  /** The bracket's cubic turns up somewhere before tau. */
  predicate TurnsBy(b: Bracket, tau: real) {
    Slope(BracketZ3(b), Middle(b), Start(b), tau) > 0.0
  }

  function BracketCubic(root: Root, b: Bracket): Cubic {
    CubicMin(root, b.al, b.at, b.fl, b.ft, b.gl, b.gt)
  }

  lemma BracketNormal(b: Bracket)
    ensures Coefficients(b.al, Length(b), BracketZ3(b), Middle(b), Start(b), BracketZ1(b), BracketZ2(b))
    ensures Slope(BracketZ3(b), Middle(b), Start(b), 1.0) == b.gt * (b.at - b.al)
    ensures Slope(BracketZ3(b), Middle(b), Start(b), 2.0 / 3.0) == (4.0 * (b.ft - b.fl) - Start(b)) / 3.0
  {
    hide Slope, Z1, Z2, Coefficients;
    Normal(b.al, b.at, Length(b), b.fl, b.ft, b.gl, b.gt, BracketZ3(b), Middle(b), Start(b));
  }

  /** A trial that is too high, or that climbs, has a turn before it. */
  lemma TurnsBefore(b: Bracket)
    requires Downhill(b)
    ensures b.ft > b.fl ==> TurnsBy(b, 2.0 / 3.0)
    ensures b.gt * (b.at - b.al) > 0.0 ==> TurnsBy(b, 1.0)
  {
    hide Slope, BracketZ3, BracketZ2, BracketZ1, Middle, Start, Coefficients;
    BracketNormal(b);
  }

  /** cubicMin finds the turn of a plain bracket, unless its inflection is at step 0. */
  lemma CubicOfBracket(root: Root, b: Bracket, tau: real) returns (t: real)
    requires IsRoot(root) && Downhill(b) && Plain(b) && 0.0 < tau && TurnsBy(b, tau)
    ensures var ac := BracketCubic(root, b);
            && ac.found && !ac.at.PlusInfinity? && (ac.at.NotANumber? <==> !NearQuadratic(b) && BracketZ2(b) == 0.0)
            && (ac.at.Num? ==> 0.0 < t < tau && ac.at.x == At(b.al, Length(b), t))
  {
    DownhillApart(b);
    hide Slope, Z1, Z2, Z3, Start, Middle, Coefficients, Near, CubicOf, At, IsRoot;
    BracketNormal(b);
    t := TurnOrLost(root, b.al, b.at, Length(b), BracketZ3(b), Middle(b), Start(b), tau, BracketZ1(b), BracketZ2(b));
  }

  lemma TurnOrLost(root: Root, a: real, b: real, d: real, c: real, m: real, n: real, tau: real, z1: real, z2: real) returns (t: real)
    requires IsRoot(root) && b == a + d && d != 0.0 && n < 0.0 && 0.0 < tau && Slope(c, m, n, tau) > 0.0
    requires Coefficients(a, d, c, m, n, z1, z2) && (Near(z1, z2, c) ==> c == 0.0)
    ensures var ac := CubicOf(root, b, d, z1, z2, c);
            && ac.found && !ac.at.PlusInfinity? && (ac.at.NotANumber? <==> !Near(z1, z2, c) && z2 == 0.0)
            && (ac.at.Num? ==> 0.0 < t < tau && ac.at.x == At(a, d, t))
  {
    hide *;
    if c == 0.0 {
      t := StraightTurn(root, a, d, m, n, tau, z1, z2);
    } else {
      t := CubicTurns(root, a, d, c, m, n, tau, z1, z2);
    }
  }

  /** quadMin3's point of a trial that is too high lies in the nearer half. */
  lemma QuadInside(b: Bracket) returns (w: real)
    requires Downhill(b) && b.ft > b.fl
    ensures 0.0 < w < 0.5 && QuadMin3(b.al, b.at, b.fl, b.gl, b.ft) == Num(At(b.al, Length(b), w))
  {
    var d := b.at - b.al;
    var n := d * b.gl;
    assert n == b.gl * d;
    var num, den := 0.5 * d * b.gl, b.fl - b.ft + d * b.gl;
    assert num == 0.5 * n && den == b.fl - b.ft + n;
    w := num / den;
    QuotientBack(den, num, w);
    HalfInside(n, b.ft - b.fl, w, den);
  }

  lemma HalfInside(n: real, rise: real, w: real, den: real)
    requires n < 0.0 && rise > 0.0 && den == n - rise && w * den == 0.5 * n
    ensures 0.0 < w < 0.5
  {
    if w <= 0.0 { NotNegative(-w, -den); }
    if w >= 0.5 {
      NotNegative(w - 0.5, -den);
    }
  }

  /** quadMin2's point of slopes of opposite sign lies in between. */
  lemma SecantInside(b: Bracket) returns (w: real)
    requires Downhill(b) && b.gt * b.gl < 0.0
    ensures 0.0 < w < 1.0 && QuadMin2(b.al, b.at, b.gl, b.gt) == Num(At(b.al, Length(b), w))
  {
    OppositeApart(b.gl, b.gt);
    w := b.gl / (b.gl - b.gt);
    QuotientBack(b.gl - b.gt, b.gl, w);
    SecantWeight(b.gl, b.gt, w);
  }

  lemma OppositeApart(x: real, y: real)
    requires y * x < 0.0
    ensures (x > 0.0 && y < 0.0) || (x < 0.0 && y > 0.0)
  {
  }

  lemma SecantWeight(x: real, y: real, w: real)
    requires (x > 0.0 && y < 0.0) || (x < 0.0 && y > 0.0)
    requires w * (x - y) == x
    ensures 0.0 < w < 1.0
  {
    var z := x - y;
    if x > 0.0 {
      if w <= 0.0 { NotNegative(-w, z); }
      if w >= 1.0 { NotNegative(w - 1.0, z); }
    } else {
      if w <= 0.0 { NotNegative(-w, -z); }
      if w >= 1.0 { NotNegative(w - 1.0, -z); }
    }
  }

  /** The cubic's inflection is at step 0, where cubicMin multiplies zero by infinity. */
  predicate Loses(b: Bracket) {
    !NearQuadratic(b) && BracketZ2(b) == 0.0
  }

  /** A cubic wrongly taken for a quadratic whose turn is so far beyond the trial that
      its mean with quadMin3's point is not below the trial. */
  predicate Overshoots(b: Bracket) {
    && NearQuadratic(b) && BracketZ2(b) * Length(b) > 0.0 && BracketZ2(b) != 0.0
    && var aq := QuadMin3(b.al, b.at, b.fl, b.gl, b.ft);
       aq.Num? && aq.x + -0.5 * BracketZ1(b) / BracketZ2(b) >= 2.0 * b.at
  }

  lemma MeanInside(b: Bracket, t: real, w: real)
    requires 0.0 < t < 1.0 && 0.0 < w < 1.0 && b.al != b.at
    ensures Between(b, (At(b.al, Length(b), w) + At(b.al, Length(b), t)) / 2.0)
  {
    InBetween(b, t);
    InBetween(b, w);
    hide At;
  }

  lemma FartherPlain(root: Root, b: Bracket)
    requires IsRoot(root) && Downhill(b) && b.ft > b.fl && b.au != Fin(b.al) && Plain(b)
    ensures Select(root, b).NotANumber? <==> Loses(b)
    ensures !Select(root, b).PlusInfinity? && (Select(root, b).Num? ==> Between(b, Select(root, b).x))
  {
    DownhillApart(b);
    TurnsBefore(b);
    var t := CubicOfBracket(root, b, 2.0 / 3.0);
    var w := QuadInside(b);
    hide At, QuadMin3, Downhill, NearQuadratic, BracketZ2, TurnsBy, IsRoot, Plain, CubicMin, Between;
    InBetween(b, w);
    if BracketCubic(root, b).at.Num? {
      InBetween(b, t);
      MeanInside(b, t, w);
    }
  }

  lemma NearCubic(root: Root, b: Bracket)
    requires NearQuadratic(b)
    ensures BracketCubic(root, b) ==
            if BracketZ2(b) * Length(b) > 0.0 && BracketZ2(b) != 0.0 then Cubic(Num(-0.5 * BracketZ1(b) / BracketZ2(b)), true)
            else Cubic(Num(b.at), false)
  {
    hide Near, Z1, Z2, Z3;
  }

  /** What a trial that is too high leads to. */
  lemma FartherStep(root: Root, b: Bracket)
    requires IsRoot(root) && Downhill(b) && b.ft > b.fl && b.au != Fin(b.al)
    ensures Select(root, b).NotANumber? <==> Loses(b)
    ensures !Select(root, b).PlusInfinity?
    ensures Plain(b) && Select(root, b).Num? ==> Between(b, Select(root, b).x)
    ensures b.al < b.at ==> (Select(root, b).Num? && Select(root, b).x >= b.at <==> Overshoots(b))
  {
    if NearQuadratic(b) {
      DownhillApart(b);
      NearCubic(root, b);
      var w := QuadInside(b);
      InBetween(b, w);
      if Plain(b) {
        FartherPlain(root, b);
      }
      hide At, QuadMin3, Downhill, NearQuadratic, BracketZ2, BracketZ1, BracketZ3, TurnsBy, IsRoot, CubicMin, Between;
      NearFarther(root, b);
    } else {
      FartherPlain(root, b);
    }
  }

  lemma NearFarther(root: Root, b: Bracket)
    requires Downhill(b) && b.ft > b.fl && b.au != Fin(b.al) && NearQuadratic(b)
    ensures Select(root, b).Num?
    ensures b.al < b.at ==> (Select(root, b).x >= b.at <==> Overshoots(b))
  {
    DownhillApart(b);
    NearCubic(root, b);
    var w := QuadInside(b);
    InBetween(b, w);
    if b.al < b.at { HalfWay(b, w); }
    hide At, QuadMin3, Downhill, NearQuadratic, BracketZ2, BracketZ1, BracketZ3, TurnsBy, IsRoot, CubicMin;
  }

  lemma HalfWay(b: Bracket, w: real)
    requires 0.0 < w < 0.5 && b.al < b.at
    ensures At(b.al, Length(b), w) < (b.al + b.at) / 2.0
  {
    var p := Positive(0.5 - w, Length(b));
  }

  /** From step 0, and no farther than step 1, a near-quadratic is near enough: the step
      stays inside. */
  lemma FirstStep(root: Root, b: Bracket)
    requires IsRoot(root) && Downhill(b) && b.ft > b.fl && b.au != Fin(b.al) && b.al == 0.0 && 0.0 < b.at <= 1.0
    ensures !Select(root, b).PlusInfinity? && (Select(root, b).Num? ==> Between(b, Select(root, b).x))
  {
    if Plain(b) {
      FartherPlain(root, b);
    } else {
      DownhillApart(b);
      NearCubic(root, b);
      var w := QuadInside(b);
      InBetween(b, w);
      var t := NearTurn(b);
      InBetween(b, t);
      MeanInside(b, t, w);
      hide At, QuadMin3, Downhill, NearQuadratic, BracketZ2, BracketZ1, BracketZ3, TurnsBy, IsRoot, CubicMin, Between, Plain;
    }
  }

  lemma NearTurn(b: Bracket) returns (t: real)
    requires Downhill(b) && b.ft > b.fl && NearQuadratic(b) && b.al == 0.0 && 0.0 < b.at <= 1.0
    ensures 0.0 < t < 1.0 && BracketZ2(b) != 0.0 && -0.5 * BracketZ1(b) / BracketZ2(b) == At(b.al, Length(b), t)
  {
    BracketNormal(b);
    hide Slope, BracketZ2, BracketZ1, BracketZ3, Start, IsRoot, At, TurnsBy;
    t := NearTurnOf(b.ft - b.fl, Length(b), BracketZ3(b), Middle(b), Start(b), BracketZ1(b), BracketZ2(b));
  }

  lemma NearTurnOf(rise: real, d: real, c: real, m: real, n: real, z1: real, z2: real) returns (t: real)
    requires n < 0.0 && rise > 0.0 && 0.0 < d <= 1.0 && m == rise - c - n && Near(z1, z2, c)
    requires Coefficients(0.0, d, c, m, n, z1, z2)
    ensures 0.0 < t < 1.0 && z2 != 0.0 && -0.5 * z1 / z2 == At(0.0, d, t)
  {
    var dd := Positive(d, d);
    NearScale(rise, d, dd, c, m, n, z1, z2);
    t := HalfTurn(rise, m, n);
    var p := Positive(m, d);
    hide Near, At;
    StraightRoot(0.0, d, m, n, z1, z2, t);
  }

  lemma NearScale(rise: real, d: real, dd: real, c: real, m: real, n: real, z1: real, z2: real)
    requires n < 0.0 && rise > 0.0 && 0.0 < d <= 1.0 && dd == d * d && m == rise - c - n && Near(z1, z2, c)
    requires z2 == m * d && z1 == n * dd
    ensures m > (rise - n) / 2.0
  {
    var e := d;
    TimesWithin(d, e, dd);
    var q := Positive(d, e);
    SmallScale(m, d, z2);
    SmallScale(n, dd, z1);
    hide Near, Abs;
    NearBound(rise, c, m, n, z1, z2, Abs(z1), Abs(z2), Abs(m));
  }

  lemma NearBound(rise: real, c: real, m: real, n: real, z1: real, z2: real, a1: real, a2: real, am: real)
    requires n < 0.0 && rise > 0.0 && m == rise - c - n && Near(z1, z2, c)
    requires a1 == Abs(z1) && a2 == Abs(z2) && am == Abs(m) && a2 <= am && a1 <= -n
    ensures m > (rise - n) / 2.0
  {
    assert Abs(c) < EPS * (am - n);
    assert am <= rise - n + Abs(c);
  }

  /** -n / 2m for an m above half of rise - n. */
  lemma HalfTurn(rise: real, m: real, n: real) returns (t: real)
    requires n < 0.0 && rise > 0.0 && m > (rise - n) / 2.0
    ensures 0.0 < t < 1.0 && t * (2.0 * m) == -n
  {
    t := -n / (2.0 * m);
    QuotientBack(2.0 * m, -n, t);
    if t <= 0.0 { NotNegative(-t, m); }
    if t >= 1.0 { NotNegative(t - 1.0, m); }
  }

  lemma SmallScale(x: real, q: real, p: real)
    requires 0.0 < q <= 1.0 && p == x * q
    ensures Abs(p) <= Abs(x)
  {
    if x >= 0.0 { TimesWithin(q, x, p); } else { TimesWithin(q, -x, -p); }
  }

  /** What a trial that is low enough but climbs leads to. */
  lemma NearerStep(root: Root, b: Bracket)
    requires IsRoot(root) && Downhill(b) && b.ft <= b.fl && b.gt * b.gl < 0.0 && b.au != Fin(b.al) && Plain(b)
    ensures Select(root, b).Num? && Between(b, Select(root, b).x)
  {
    ClimbingTurns(b);
    var t := CubicOfBracket(root, b, 1.0);
    var w := SecantInside(b);
    DownhillApart(b);
    hide At, QuadMin2, Downhill, NearQuadratic, BracketZ2, TurnsBy, IsRoot, Plain, CubicMin, Between;
    InBetween(b, w);
    if BracketCubic(root, b).at.Num? { InBetween(b, t); }
  }

  /** A low trial that climbs takes whichever of the cubic's step and the secant's is farther
      from it. */
  lemma ClimbingChoice(root: Root, b: Bracket, c: real, w: real)
    requires b.ft <= b.fl && b.gt * b.gl < 0.0 && b.au != Fin(b.al)
    requires CubicMin(root, b.al, b.at, b.fl, b.ft, b.gl, b.gt).at == Num(c) && QuadMin2(b.al, b.at, b.gl, b.gt) == Num(w)
    ensures Select(root, b) == Num(if Abs(c - b.at) >= Abs(w - b.at) then c else w)
  {
    hide CubicMin, QuadMin2;
  }

  /** A trial that is too high takes the cubic's step when that is nearer the lower end than
      the quadratic's, and else their mean. */
  lemma FartherChoice(root: Root, b: Bracket, c: real, w: real)
    requires b.ft > b.fl && b.au != Fin(b.al)
    requires CubicMin(root, b.al, b.at, b.fl, b.ft, b.gl, b.gt) == Cubic(Num(c), true)
    requires QuadMin3(b.al, b.at, b.fl, b.gl, b.ft) == Num(w)
    ensures Select(root, b) == Num(if Abs(c - b.al) < Abs(w - b.al) then c else (w + c) / 2.0)
  {
    hide CubicMin, QuadMin3;
  }

  /** One of the steps a trial that is low enough and goes on down may take. */
  predicate Candidate(root: Root, b: Bracket, s: Step) {
    || s == CubicMin(root, b.al, b.at, b.fl, b.ft, b.gl, b.gt).at || s == QuadMin2(b.al, b.at, b.gl, b.gt)
    || (b.au.Fin? && b.fu.Fin? && b.gu.Fin? &&
        s == CubicMin(root, b.at, b.au.value, b.ft, b.fu.value, b.gt, b.gu.value).at)
  }

  /** A low trial whose slope keeps its sign: the step goes no farther than 0.66 of the way
      from the trial to the upper end, and is that or an interpolation that stops short of
      it. */
  lemma DeepStep(root: Root, b: Bracket)
    requires b.ft <= b.fl && b.gt * b.gl >= 0.0 && b.at != b.al && b.au.Fin? && b.au != Fin(b.al)
    requires Abs(b.gt) < Abs(b.gl) || (b.fu.Fin? && b.gu.Fin?)
    ensures var s, cap := Select(root, b), b.at + 0.66 * (b.au.value - b.at);
            && s.Num? && (s.x == cap || Candidate(root, b, s))
            && (if b.at > b.al then s.x <= cap else s.x >= cap)
  {
    CubicFinite(root, b.al, b.at, b.fl, b.ft, b.gl, b.gt);
    if b.fu.Fin? && b.gu.Fin? { CubicFinite(root, b.at, b.au.value, b.ft, b.fu.value, b.gt, b.gu.value); }
    assert !QuadMin2(b.al, b.at, b.gl, b.gt).PlusInfinity?;
    hide CubicMin, QuadMin2;
  }

  /** The same without an upper end to go to, when the slope does not flatten: 1.1 times the
      step just made. */
  lemma OpenStep(root: Root, b: Bracket)
    requires b.ft <= b.fl && b.gt * b.gl >= 0.0 && Abs(b.gt) >= Abs(b.gl) && b.au.Infinite?
    ensures Select(root, b) == Num(b.at + 1.1 * (b.at - b.al))
  {
    hide CubicMin, QuadMin2;
  }

  lemma CubicFinite(root: Root, a: real, b: real, fa: real, fb: real, ga: real, gb: real)
    ensures !CubicMin(root, a, b, fa, fb, ga, gb).at.PlusInfinity?
  {
    hide Z1, Z2, Z3, Near, Root1, Root2;
  }

  /** Where the cubic's answer is no number: its inflection is at 0, between two real roots. */
  lemma CubicLost(root: Root, b: real, ba: real, z1: real, z2: real, z3: real)
    ensures CubicOf(root, b, ba, z1, z2, z3).at.NotANumber? <==> !Near(z1, z2, z3) && z2 == 0.0 && z1 * z3 < 0.0
  {
    hide Near, Root1, Root2;
  }

  lemma ClimbingTurns(b: Bracket)
    requires Downhill(b) && b.gt * b.gl < 0.0
    ensures TurnsBy(b, 1.0)
  {
    TurnsBefore(b);
    ClimbsAtTrial(b.gl, b.gt, Length(b), Start(b));
    hide TurnsBy;
  }

  lemma ClimbsAtTrial(gl: real, gt: real, d: real, n: real)
    requires n == gl * d && n < 0.0 && gt * gl < 0.0
    ensures gt * d > 0.0
  {
    OppositeApart(gl, gt);
    if gl > 0.0 {
      if d >= 0.0 { NotNegative(gl, d); }
      var p := Positive(-gt, -d);
    } else {
      if d <= 0.0 { NotNegative(-gl, -d); }
      var p := Positive(gt, d);
    }
  }
}
