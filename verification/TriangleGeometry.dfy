/** body_mesh: the closest point of a triangle, by Voronoi regions, over the reals.

    A point is given by its weights on the two edges from a, and is nearest when the
    residual gains on no corner (Optimal).  Each region test is an inequality between the
    dot products A, B, k of the edges and d1, d2 of the query with them; the lemmas show
    region by region that the tests passed so far make the region's foot Optimal. */
module TriangleGeometry {

  import opened Options

  datatype V3 = V3(x: real, y: real, z: real)

  function Add(u: V3, w: V3): V3 { V3(u.x + w.x, u.y + w.y, u.z + w.z) }
  function Sub(u: V3, w: V3): V3 { V3(u.x - w.x, u.y - w.y, u.z - w.z) }
  function Scale(u: V3, s: real): V3 { V3(u.x * s, u.y * s, u.z * s) }
  function Dot(u: V3, w: V3): real { u.x * w.x + u.y * w.y + u.z * w.z }
  function Dist2(p: V3, q: V3): real { Dot(Sub(p, q), Sub(p, q)) }

  // --- vector identities -------------------------------------------------------------

  lemma Positive(r: real, s: real) returns (q: real)
    requires r > 0.0 && s > 0.0
    ensures q == r * s && q > 0.0
  {
    q := r * s;
  }

  lemma Square(r: real) returns (q: real)
    ensures q == r * r && q >= 0.0
    ensures r == 0.0 || q > 0.0
  {
    if r > 0.0 {
      q := Positive(r, r);
    } else if r < 0.0 {
      q := Positive(-r, -r);
      assert (-r) * (-r) == r * r;
    } else {
      q := 0.0;
    }
  }

  lemma DotSelf(u: V3)
    ensures Dot(u, u) >= 0.0
    ensures u == V3(0.0, 0.0, 0.0) || Dot(u, u) > 0.0
  {
    var x := Square(u.x);
    var y := Square(u.y);
    var z := Square(u.z);
    assert Dot(u, u) == x + y + z;
  }

  lemma DotSub(u: V3, w: V3, z: V3)
    ensures Dot(Sub(u, w), z) == Dot(u, z) - Dot(w, z)
    ensures Dot(z, Sub(u, w)) == Dot(z, u) - Dot(z, w)
  {
  }

  lemma DotAdd(u: V3, w: V3, z: V3)
    ensures Dot(Add(u, w), z) == Dot(u, z) + Dot(w, z)
    ensures Dot(z, Add(u, w)) == Dot(z, u) + Dot(z, w)
  {
  }

  lemma DotScale(u: V3, s: real, z: V3)
    ensures Dot(Scale(u, s), z) == s * Dot(u, z)
    ensures Dot(z, Scale(u, s)) == s * Dot(z, u)
  {
  }

  lemma DotFlip(u: V3, w: V3)
    ensures Dot(u, w) == Dot(w, u)
  {
  }

  lemma CauchySchwarz(u: V3, w: V3)
    ensures Dot(u, w) * Dot(u, w) <= Dot(u, u) * Dot(w, w)
  {
    var c1, c2, c3 := u.x * w.y - u.y * w.x, u.x * w.z - u.z * w.x, u.y * w.z - u.z * w.y;
    var q1 := Square(c1);
    var q2 := Square(c2);
    var q3 := Square(c3);
    Lagrange(u.x, u.y, u.z, w.x, w.y, w.z);
  }

  lemma Lagrange(a: real, b: real, c: real, x: real, y: real, z: real)
    ensures (a * a + b * b + c * c) * (x * x + y * y + z * z) - (a * x + b * y + c * z) * (a * x + b * y + c * z)
         == (a * y - b * x) * (a * y - b * x) + (a * z - c * x) * (a * z - c * x) + (b * z - c * y) * (b * z - c * y)
  {
    Square2(a, y, b, x);
    Square2(a, z, c, x);
    Square2(b, z, c, y);
    Square3(a * x, b * y, c * z);
    Product3(a * a, b * b, c * c, x * x, y * y, z * z);
    Swap(a, x); Swap(b, y); Swap(c, z); Swap(a, y); Swap(a, z); Swap(b, x); Swap(b, z); Swap(c, x); Swap(c, y);
    Cross(a, x, b, y); Cross(a, x, c, z); Cross(b, y, c, z);
  }

  lemma Swap(a: real, x: real) ensures (a * x) * (a * x) == (a * a) * (x * x) {}
  lemma Cross(a: real, x: real, b: real, y: real) ensures (a * y) * (b * x) == (a * x) * (b * y) {}
  lemma Square2(a: real, y: real, b: real, x: real)
    ensures (a * y - b * x) * (a * y - b * x) == (a * y) * (a * y) - 2.0 * ((a * y) * (b * x)) + (b * x) * (b * x) {}
  lemma Square3(a: real, b: real, c: real)
    ensures (a + b + c) * (a + b + c) == a * a + b * b + c * c + 2.0 * (a * b) + 2.0 * (a * c) + 2.0 * (b * c) {}
  lemma Product3(a: real, b: real, c: real, x: real, y: real, z: real)
    ensures (a + b + c) * (x + y + z) == a * x + a * y + a * z + b * x + b * y + b * z + c * x + c * y + c * z {}

  // --- the triangle ---------------------------------------------------------------------

  /** The triangle's point a + s ab + t ac. */
  function PointAt(a: V3, b: V3, c: V3, s: real, t: real): V3 {
    Add(Add(a, Scale(Sub(b, a), s)), Scale(Sub(c, a), t))
  }

  predicate Weights(s: real, t: real) {
    s >= 0.0 && t >= 0.0 && s + t <= 1.0
  }

  ghost predicate InTriangle(a: V3, b: V3, c: V3, q: V3) {
    exists s, t :: Weights(s, t) && q == PointAt(a, b, c, s, t)
  }

  /** A point of the triangle no point of it is nearer to p than. */
  ghost predicate IsNearest(a: V3, b: V3, c: V3, p: V3, q: V3) {
    InTriangle(a, b, c, q) && forall x :: InTriangle(a, b, c, x) ==> Dist2(p, q) <= Dist2(p, x)
  }

  lemma SubPoint(a: V3, b: V3, c: V3, p: V3, s: real, t: real, z: V3)
    ensures Dot(Sub(p, PointAt(a, b, c, s, t)), z) == Dot(Sub(p, a), z) - s * Dot(Sub(b, a), z) - t * Dot(Sub(c, a), z)
  {
    hide Dot, Add, Scale, Sub;
    DotSub(p, PointAt(a, b, c, s, t), z);
    DotAdd(Add(a, Scale(Sub(b, a), s)), Scale(Sub(c, a), t), z);
    DotAdd(a, Scale(Sub(b, a), s), z);
    DotScale(Sub(b, a), s, z);
    DotScale(Sub(c, a), t, z);
    DotSub(p, a, z);
  }

  /** |p - x|^2 = |p - q|^2 - 2 (p - q).(x - q) + |x - q|^2 */
  lemma Expand(p: V3, q: V3, x: V3)
    ensures Dist2(p, x) == Dist2(p, q) - 2.0 * Dot(Sub(p, q), Sub(x, q)) + Dist2(x, q)
  {
    var u, w := Sub(p, q), Sub(x, q);
    assert Sub(p, x) == Sub(u, w);
    hide Dot, Sub;
    DotSub(u, w, Sub(u, w));
    DotSub(u, w, u);
    DotSub(u, w, w);
    DotFlip(u, w);
  }

  /** e1 = (p - q).ab and e2 = (p - q).ac bound the gain of moving towards any corner. */
  predicate Optimal(s: real, t: real, e1: real, e2: real) {
    var m := s * e1 + t * e2;
    m >= 0.0 && e1 <= m && e2 <= m
  }

  lemma NoGain(s: real, t: real, e1: real, e2: real, s': real, t': real)
    requires Optimal(s, t, e1, e2) && Weights(s', t')
    ensures (s' - s) * e1 + (t' - t) * e2 <= 0.0
  {
    var m := s * e1 + t * e2;
    NoGainFrom(e1, e2, m, s', t');
    Distribute(s', s, e1);
    Distribute(t', t, e2);
  }

  lemma Distribute(x: real, y: real, z: real)
    ensures (x - y) * z == x * z - y * z
  {
  }

  lemma Collect(m: real, s: real, t: real)
    ensures m * (s + t) == s * m + t * m && m * 1.0 == m
  {
  }

  lemma NoGainFrom(e1: real, e2: real, m: real, s: real, t: real)
    requires m >= 0.0 && e1 <= m && e2 <= m && Weights(s, t)
    ensures s * e1 + t * e2 <= m
  {
    var u := Bounded(s, e1, m);
    var w := Bounded(t, e2, m);
    var z := Bounded(m, s + t, 1.0);
    Collect(m, s, t);
  }

  lemma Bounded(r: real, x: real, y: real) returns (p: real)
    requires r >= 0.0 && x <= y
    ensures p == r * x && p <= r * y
  {
    TimesLe(r, x, y);
    p := r * x;
  }

  lemma TimesLe(r: real, x: real, y: real)
    requires r >= 0.0 && x <= y
    ensures r * x <= r * y
  {
  }

  /** The difference of two of the triangle's points. */
  lemma SubPoints(a: V3, b: V3, c: V3, s: real, t: real, s': real, t': real, z: V3)
    ensures Dot(z, Sub(PointAt(a, b, c, s', t'), PointAt(a, b, c, s, t)))
         == (s' - s) * Dot(z, Sub(b, a)) + (t' - t) * Dot(z, Sub(c, a))
  {
    var x, q := PointAt(a, b, c, s', t'), PointAt(a, b, c, s, t);
    hide Dot, Sub;
    DotSub(x, q, z);
    SubPoint(a, b, c, x, s, t, z);
    SubPoint(a, b, c, a, s', t', z);
    DotSub(a, x, z);
    DotSub(a, q, z);
    SubPoint(a, b, c, a, s, t, z);
    DotFlip(z, Sub(x, q));
    DotFlip(z, Sub(b, a));
    DotFlip(z, Sub(c, a));
    assert Dot(Sub(x, q), z) == (s' - s) * Dot(Sub(b, a), z) + (t' - t) * Dot(Sub(c, a), z);
  }

  lemma NotNearer(p: V3, q: V3, x: V3)
    requires Dot(Sub(p, q), Sub(x, q)) <= 0.0
    ensures Dist2(p, q) <= Dist2(p, x)
  {
    hide Dot, Sub;
    Expand(p, q, x);
    DotSelf(Sub(x, q));
  }

  /** The optimality test makes a point the nearest one. */
  lemma OptimalIsNearest(a: V3, b: V3, c: V3, p: V3, s: real, t: real)
    requires Weights(s, t)
    requires var q := PointAt(a, b, c, s, t); Optimal(s, t, Dot(Sub(p, q), Sub(b, a)), Dot(Sub(p, q), Sub(c, a)))
    ensures IsNearest(a, b, c, p, PointAt(a, b, c, s, t))
  {
    hide Dot, Sub, PointAt, Optimal;
    var q := PointAt(a, b, c, s, t);
    forall x | InTriangle(a, b, c, x) ensures Dist2(p, q) <= Dist2(p, x) {
      var s', t' :| Weights(s', t') && x == PointAt(a, b, c, s', t');
      var e1, e2 := Dot(Sub(p, q), Sub(b, a)), Dot(Sub(p, q), Sub(c, a));
      SubPoints(a, b, c, s, t, s', t', Sub(p, q));
      NoGain(s, t, e1, e2, s', t');
      NotNearer(p, q, x);
    }
  }

  // --- signs ---------------------------------------------------------------------------

  lemma SignLeft(k: real, d: real, q: real)
    requires q == k * d && q > 0.0 && d < 0.0
    ensures k < 0.0
  {
    if k >= 0.0 { TimesLe(k, d, 0.0); }
  }

  lemma TimesLt(r: real, x: real, y: real)
    requires r > 0.0 && x < y
    ensures r * x < r * y
  {
  }

  lemma CancelLe(r: real, x: real, y: real)
    requires r > 0.0 && r * x <= r * y
    ensures x <= y
  {
    if x > y { TimesLt(r, y, x); }
  }

  lemma CancelLt(r: real, x: real, y: real)
    requires r > 0.0 && r * x < r * y
    ensures x < y
  {
    if x >= y { TimesLe(r, y, x); }
  }

  /** At a corner with edges of squared lengths A and B and dot product k, a point
      behind the first edge and beyond its normal is beyond the second edge too. */
  lemma Corner(A: real, B: real, k: real, d1: real, d2: real)
    requires A > 0.0 && k * k <= A * B && d1 < 0.0 < d2 && A * d2 <= k * d1
    ensures B * d1 <= k * d2
    ensures d2 > B ==> d1 < k
  {
    TimesLt(A, 0.0, d2);
    assert A * 0.0 == 0.0;
    SignLeft(k, d1, k * d1);
    assert A * (B * d1) <= A * (k * d2) by {
      TimesLe(-k, A * d2, k * d1);
      TimesLe(-d1, k * k, A * B);
      assert A * (B * d1) == -((-d1) * (A * B));
      assert A * (k * d2) == -((-k) * (A * d2));
      assert (-k) * (k * d1) == (-d1) * (k * k);
    }
    CancelLe(A, B * d1, k * d2);
    if d2 > B {
      TimesLt(A, B, d2);
      assert (-k) * (-d1) == k * d1 && (-k) * (-k) == k * k;
      CancelLt(-k, -k, -d1);
    }
  }

  // --- the Voronoi regions ------------------------------------------------------------

  datatype Region = Face | Edge | Vertex

  /** Edges are 0 ab, 1 bc, 2 ca; vertices 0 a, 1 b, 2 c. */
  datatype Foot = Foot(point: V3, region: Region, sub: nat)

  /** The quotient, or nothing where the float division gives NaN or an infinity. */
  function Over(x: real, y: real): Option<real> {
    if y == 0.0 then None else Some(x / y)
  }

  /** The point a region's ray reaches, if its parameter is a number. */
  function Along(o: V3, dir: V3, at: Option<real>, sub: nat): Option<Foot> {
    match at
    case None => None
    case Some(s) => Some(Foot(Add(o, Scale(dir, s)), Edge, sub))
  }

  function ClosestPoint(a: V3, b: V3, c: V3, p: V3): Option<Foot> {
    var ab, ac, ap := Sub(b, a), Sub(c, a), Sub(p, a);
    var d1, d2 := Dot(ab, ap), Dot(ac, ap);
    var bp := Sub(p, b);
    var d3, d4 := Dot(ab, bp), Dot(ac, bp);
    var cp := Sub(p, c);
    var d5, d6 := Dot(ab, cp), Dot(ac, cp);
    Region6(a, b, c, d1, d2, d3, d4, d5, d6)
  }

  /** The region tests, on ab and ac dotted with ap, bp and cp. */
  function Region6(a: V3, b: V3, c: V3, d1: real, d2: real, d3: real, d4: real, d5: real, d6: real): Option<Foot> {
    var ab, ac := Sub(b, a), Sub(c, a);
    var vc, vb, va := d1 * d4 - d3 * d2, d5 * d2 - d1 * d6, d3 * d6 - d5 * d4;
    if d1 <= 0.0 && d2 <= 0.0 then Some(Foot(a, Vertex, 0))
    else if d3 >= 0.0 && d4 <= d3 then Some(Foot(b, Vertex, 1))
    else if vc <= 0.0 && d1 >= 0.0 && d3 <= 0.0 then Along(a, ab, Over(d1, d1 - d3), 0)
    else if d6 >= 0.0 && d5 <= d6 then Some(Foot(c, Vertex, 2))
    else if vb <= 0.0 && d2 >= 0.0 && d6 <= 0.0 then Along(a, ac, Over(d2, d2 - d6), 2)
    else if va <= 0.0 && d4 - d3 >= 0.0 && d5 - d6 >= 0.0 then
      Along(b, Sub(c, b), Over(d4 - d3, (d4 - d3) + (d5 - d6)), 1)
    else Inside(a, b, c, va, vb, vc)
  }

  /** The face's point by its unnormalised barycentric weights. */
  function Inside(a: V3, b: V3, c: V3, va: real, vb: real, vc: real): Option<Foot> {
    match Over(1.0, va + vb + vc)
    case None => None
    case Some(den) => Some(InsideAt(a, b, c, vb, vc, den))
  }

  function InsideAt(a: V3, b: V3, c: V3, vb: real, vc: real, den: real): Foot {
    Foot(Add(Add(a, Scale(Sub(b, a), vb * den)), Scale(Sub(c, a), vc * den)), Face, 0)
  }

  /** The six dot products through A = |ab|^2, B = |ac|^2, k = ab.ac. */
  ghost predicate Gram(A: real, B: real, k: real, d1: real, d2: real) {
    && A >= 0.0 && B >= 0.0 && A + B - 2.0 * k >= 0.0 && k * k <= A * B
    && (A == 0.0 ==> d1 == 0.0 && k == 0.0)
    && (B == 0.0 ==> d2 == 0.0 && k == 0.0)
    && (A + B - 2.0 * k == 0.0 ==> A == k && B == k && d1 == d2)
  }

  lemma GramOf(ab: V3, ac: V3, ap: V3)
    ensures Gram(Dot(ab, ab), Dot(ac, ac), Dot(ab, ac), Dot(ab, ap), Dot(ac, ap))
  {
    DotSelf(ab);
    DotSelf(ac);
    CauchySchwarz(ab, ac);
    GramEdge(ab, ac);
    ZeroDot(ab, ac);
    ZeroDot(ab, ap);
    ZeroDot(ac, ap);
    ZeroDot(ac, ab);
    hide Dot;
    DotFlip(ab, ac);
  }

  lemma ZeroDot(u: V3, w: V3)
    ensures Dot(u, u) == 0.0 ==> Dot(u, w) == 0.0
  {
    DotSelf(u);
    if u == V3(0.0, 0.0, 0.0) { assert Dot(u, w) == 0.0; }
  }

  lemma GramEdge(ab: V3, ac: V3)
    ensures Dot(ab, ab) + Dot(ac, ac) - 2.0 * Dot(ab, ac) >= 0.0
    ensures Dot(ab, ab) + Dot(ac, ac) - 2.0 * Dot(ab, ac) == 0.0 ==> ab == ac
  {
    hide Dot, Sub;
    var bc := Sub(ac, ab);
    DotSub(ac, ab, bc);
    DotSub(ac, ab, ac);
    DotSub(ac, ab, ab);
    DotFlip(ac, ab);
    DotSelf(bc);
    if bc == V3(0.0, 0.0, 0.0) { SubZero(ac, ab); }
  }

  lemma SubZero(u: V3, w: V3)
    requires Sub(u, w) == V3(0.0, 0.0, 0.0)
    ensures u == w
  {
  }

  lemma FromScalars(a: V3, b: V3, c: V3, p: V3, s: real, t: real, A: real, B: real, k: real, d1: real, d2: real)
    requires A == Dot(Sub(b, a), Sub(b, a)) && B == Dot(Sub(c, a), Sub(c, a)) && k == Dot(Sub(b, a), Sub(c, a))
    requires d1 == Dot(Sub(b, a), Sub(p, a)) && d2 == Dot(Sub(c, a), Sub(p, a))
    requires Weights(s, t) && Optimal(s, t, d1 - s * A - t * k, d2 - s * k - t * B)
    ensures IsNearest(a, b, c, p, PointAt(a, b, c, s, t))
  {
    hide Dot, Sub, PointAt, Optimal, IsNearest;
    var ab, ac := Sub(b, a), Sub(c, a);
    SubPoint(a, b, c, p, s, t, ab);
    SubPoint(a, b, c, p, s, t, ac);
    DotFlip(ab, ac);
    DotFlip(ab, Sub(p, a));
    DotFlip(ac, Sub(p, a));
    var q := PointAt(a, b, c, s, t);
    assert Dot(Sub(p, q), ab) == d1 - s * A - t * k;
    assert Dot(Sub(p, q), ac) == d2 - s * k - t * B;
    OptimalIsNearest(a, b, c, p, s, t);
  }

  // --- the face region: no other test fired ------------------------------------------------

  /** None of the vertex and edge tests fires. */
  ghost predicate OnlyFace(A: real, B: real, k: real, d1: real, d2: real) {
    var d3, d4, d5, d6 := d1 - A, d2 - k, d1 - k, d2 - B;
    && Gram(A, B, k, d1, d2)
    && !(d1 <= 0.0 && d2 <= 0.0) && !(d3 >= 0.0 && d4 <= d3) && !(d6 >= 0.0 && d5 <= d6)
    && !(A * d2 <= k * d1 && d1 >= 0.0 && d3 <= 0.0)
    && !(B * d1 <= k * d2 && d2 >= 0.0 && d6 <= 0.0)
    && !(d5 * d4 >= d3 * d6 && d4 - d3 >= 0.0 && d5 - d6 >= 0.0)
  }

  /** The tests at b's corner are those at a's, with a and b swapped. */
  lemma CornerAtB(A: real, B: real, k: real, d1: real, d2: real)
    requires k * k <= A * B && A > 0.0
    ensures var D, k', d3, d4, d5, d6 := A + B - 2.0 * k, A - k, d1 - A, d2 - k, d1 - k, d2 - B;
            && k' * k' <= A * D
            && (A * (d4 - d3) <= k' * -d3 <==> A * d2 <= k * d1)
            && (D * -d3 <= k' * (d4 - d3) <==> d5 * d4 >= d3 * d6)
  {
    var D, k', d3, d4, d5, d6 := A + B - 2.0 * k, A - k, d1 - A, d2 - k, d1 - k, d2 - B;
    assert A * D - k' * k' == A * B - k * k;
    assert A * (d4 - d3) - k' * -d3 == A * d2 - k * d1;
    assert k' * (d4 - d3) - D * -d3 == d5 * d4 - d3 * d6;
  }

  lemma CornerAtC(A: real, B: real, k: real, d1: real, d2: real)
    requires k * k <= A * B && B > 0.0
    ensures var D, k', d3, d4, d5, d6 := A + B - 2.0 * k, B - k, d1 - A, d2 - k, d1 - k, d2 - B;
            && k' * k' <= B * D
            && (B * (d5 - d6) <= k' * -d6 <==> B * d1 <= k * d2)
            && (D * -d6 <= k' * (d5 - d6) <==> d5 * d4 >= d3 * d6)
  {
    var D, k', d3, d4, d5, d6 := A + B - 2.0 * k, B - k, d1 - A, d2 - k, d1 - k, d2 - B;
    assert B * D - k' * k' == A * B - k * k;
    assert B * (d5 - d6) - k' * -d6 == B * d1 - k * d2;
    assert k' * (d5 - d6) - D * -d6 == d5 * d4 - d3 * d6;
  }

  lemma InsideAB(A: real, B: real, k: real, d1: real, d2: real)
    requires OnlyFace(A, B, k, d1, d2)
    ensures A * d2 > k * d1
  {
    if A * d2 <= k * d1 {
      if d1 < 0.0 {
        Corner(A, B, k, d1, d2);
      } else {
        var D, k', d3, d4 := A + B - 2.0 * k, A - k, d1 - A, d2 - k;
        CornerAtB(A, B, k, d1, d2);
        Corner(A, D, k', -d3, d4 - d3);
      }
    }
  }

  lemma InsideAC(A: real, B: real, k: real, d1: real, d2: real)
    requires OnlyFace(A, B, k, d1, d2)
    ensures B * d1 > k * d2
  {
    if B * d1 <= k * d2 {
      if d2 < 0.0 {
        assert k * k <= B * A;
        Corner(B, A, k, d2, d1);
        InsideAB(A, B, k, d1, d2);
      } else {
        var D, k', d5, d6 := A + B - 2.0 * k, B - k, d1 - k, d2 - B;
        CornerAtC(A, B, k, d1, d2);
        Corner(B, D, k', -d6, d5 - d6);
      }
    }
  }

  lemma InsideBC(A: real, B: real, k: real, d1: real, d2: real)
    requires OnlyFace(A, B, k, d1, d2)
    ensures (d1 - A) * (d2 - B) > (d1 - k) * (d2 - k)
  {
    var D, d3, d4, d5, d6 := A + B - 2.0 * k, d1 - A, d2 - k, d1 - k, d2 - B;
    if d5 * d4 >= d3 * d6 {
      if d4 < d3 {
        InsideAB(A, B, k, d1, d2);
        assert A > 0.0;
        CornerAtB(A, B, k, d1, d2);
        assert (A - k) * (A - k) <= D * A;
        Corner(D, A, A - k, d4 - d3, -d3);
      } else {
        InsideAC(A, B, k, d1, d2);
        assert B > 0.0;
        CornerAtC(A, B, k, d1, d2);
        assert (B - k) * (B - k) <= D * B;
        Corner(D, B, B - k, d5 - d6, -d6);
      }
    }
  }

  // --- each region's point is the nearest ----------------------------------------------------

  lemma Quotient(x: real, y: real) returns (s: real)
    requires 0.0 <= x <= y && y > 0.0
    ensures s == x / y && 0.0 <= s <= 1.0 && s * y == x
  {
    s := x / y;
    assert s * y == x;
    if s < 0.0 { TimesLt(y, s, 0.0); }
    if s > 1.0 { TimesLt(y, 1.0, s); }
  }

  lemma EdgeABOptimal(A: real, B: real, k: real, d1: real, d2: real) returns (s: real)
    requires Gram(A, B, k, d1, d2) && A * d2 <= k * d1 && 0.0 <= d1 <= A && A > 0.0
    ensures s == d1 / A && Weights(s, 0.0) && Optimal(s, 0.0, d1 - s * A - 0.0 * k, d2 - s * k - 0.0 * B)
  {
    s := Quotient(d1, A);
    assert A * (s * k) == k * d1;
    CancelLe(A, d2, s * k);
    assert s * 0.0 == 0.0;
  }

  lemma EdgeACOptimal(A: real, B: real, k: real, d1: real, d2: real) returns (t: real)
    requires Gram(A, B, k, d1, d2) && B * d1 <= k * d2 && 0.0 <= d2 <= B && B > 0.0
    ensures t == d2 / B && Weights(0.0, t) && Optimal(0.0, t, d1 - 0.0 * A - t * k, d2 - 0.0 * k - t * B)
  {
    t := Quotient(d2, B);
    assert B * (t * k) == k * d2;
    CancelLe(B, d1, t * k);
    assert t * 0.0 == 0.0;
  }

  lemma EdgeBCOptimal(A: real, B: real, k: real, d1: real, d2: real) returns (w: real)
    requires var d3, d4, d5, d6 := d1 - A, d2 - k, d1 - k, d2 - B;
             Gram(A, B, k, d1, d2) && d5 * d4 >= d3 * d6 && d4 - d3 >= 0.0 && d5 - d6 >= 0.0 && A + B - 2.0 * k > 0.0
    ensures var d3, d4, d5, d6 := d1 - A, d2 - k, d1 - k, d2 - B;
            (d4 - d3) + (d5 - d6) != 0.0 && w == (d4 - d3) / ((d4 - d3) + (d5 - d6))
    ensures Weights(1.0 - w, w) && Optimal(1.0 - w, w, d1 - (1.0 - w) * A - w * k, d2 - (1.0 - w) * k - w * B)
  {
    var d3, d4, d5, d6 := d1 - A, d2 - k, d1 - k, d2 - B;
    var D := (d4 - d3) + (d5 - d6);
    w := Quotient(d4 - d3, D);
    var e1, e2 := d1 - (1.0 - w) * A - w * k, d2 - (1.0 - w) * k - w * B;
    EdgeBCFlat(A, B, k, d1, d2, w);
    CancelLe(D, 0.0, e1);
    BetweenEqual(w, e1, e2);
  }

  lemma BetweenEqual(w: real, e1: real, e2: real)
    requires e1 == e2 && e1 >= 0.0
    ensures Optimal(1.0 - w, w, e1, e2)
  {
    assert (1.0 - w) * e1 + w * e1 == e1;
  }

  /** On bc the residual is normal to bc, and its part along ab is the bc test. */
  lemma EdgeBCFlat(A: real, B: real, k: real, d1: real, d2: real, w: real)
    requires w * (A + B - 2.0 * k) == (d2 - k) - (d1 - A)
    ensures var e1, e2 := d1 - (1.0 - w) * A - w * k, d2 - (1.0 - w) * k - w * B;
            e1 == e2 && (A + B - 2.0 * k) * e1 == (d1 - k) * (d2 - k) - (d1 - A) * (d2 - B)
  {
    var D, x := A + B - 2.0 * k, d2 - k - d1 + A;
    var e1, e2 := d1 - (1.0 - w) * A - w * k, d2 - (1.0 - w) * k - w * B;
    assert e2 - e1 == x - w * D;
    Regroup(D, d1 - A, A - k, w, x);
    assert e1 == (d1 - A) + w * (A - k);
    BCPolynomial(A, B, k, d1, d2);
  }

  lemma Regroup(D: real, u: real, q: real, w: real, x: real)
    requires w * D == x
    ensures D * (u + w * q) == D * u + x * q
  {
    assert D * (w * q) == (w * D) * q;
  }

  lemma BCPolynomial(A: real, B: real, k: real, d1: real, d2: real)
    ensures (A + B - 2.0 * k) * (d1 - A) + (d2 - k - d1 + A) * (A - k) == (d1 - k) * (d2 - k) - (d1 - A) * (d2 - B)
  {
  }

  lemma FaceOptimal(A: real, B: real, k: real, d1: real, d2: real) returns (den: real)
    requires var d3, d4, d5, d6 := d1 - A, d2 - k, d1 - k, d2 - B;
             Gram(A, B, k, d1, d2) && A * d2 > k * d1 && B * d1 > k * d2 && d3 * d6 > d5 * d4
    ensures var d3, d4, d5, d6 := d1 - A, d2 - k, d1 - k, d2 - B;
            var va, vb, vc := d3 * d6 - d5 * d4, B * d1 - k * d2, A * d2 - k * d1;
            && va + vb + vc > 0.0 && den == 1.0 / (va + vb + vc)
            && Weights(vb * den, vc * den)
            && Optimal(vb * den, vc * den, d1 - (vb * den) * A - (vc * den) * k, d2 - (vb * den) * k - (vc * den) * B)
  {
    var d3, d4, d5, d6 := d1 - A, d2 - k, d1 - k, d2 - B;
    var va, vb, vc := d3 * d6 - d5 * d4, B * d1 - k * d2, A * d2 - k * d1;
    var N := va + vb + vc;
    den := 1.0 / N;
    assert den * N == 1.0;
    assert den > 0.0 by { if den <= 0.0 { TimesLe(N, den, 0.0); } }
    assert N == A * B - k * k;
    TimesLe(den, 0.0, vb);
    TimesLe(den, 0.0, vc);
    TimesLe(den, vb + vc, N);
    var s, t := vb * den, vc * den;
    var e1, e2 := d1 - s * A - t * k, d2 - s * k - t * B;
    FaceFlat(A, B, k, d1, d2, den);
    assert s * 0.0 == 0.0 && t * 0.0 == 0.0;
  }

  lemma FaceFlat(A: real, B: real, k: real, d1: real, d2: real, den: real)
    requires den * (A * B - k * k) == 1.0
    ensures var s, t := (B * d1 - k * d2) * den, (A * d2 - k * d1) * den;
            d1 - s * A - t * k == 0.0 && d2 - s * k - t * B == 0.0
  {
    var s, t := (B * d1 - k * d2) * den, (A * d2 - k * d1) * den;
    assert s * A + t * k == d1 * (den * (A * B - k * k));
    assert s * k + t * B == d2 * (den * (A * B - k * k));
  }

  // --- the theorem ------------------------------------------------------------------------

  lemma DotsFromCorner(a: V3, b: V3, c: V3, p: V3)
    ensures Dot(Sub(b, a), Sub(p, b)) == Dot(Sub(b, a), Sub(p, a)) - Dot(Sub(b, a), Sub(b, a))
    ensures Dot(Sub(c, a), Sub(p, b)) == Dot(Sub(c, a), Sub(p, a)) - Dot(Sub(b, a), Sub(c, a))
    ensures Dot(Sub(b, a), Sub(p, c)) == Dot(Sub(b, a), Sub(p, a)) - Dot(Sub(b, a), Sub(c, a))
    ensures Dot(Sub(c, a), Sub(p, c)) == Dot(Sub(c, a), Sub(p, a)) - Dot(Sub(c, a), Sub(c, a))
  {
    assert Sub(p, b) == Sub(Sub(p, a), Sub(b, a));
    assert Sub(p, c) == Sub(Sub(p, a), Sub(c, a));
    hide Dot, Sub;
    DotSub(Sub(p, a), Sub(b, a), Sub(b, a));
    DotSub(Sub(p, a), Sub(b, a), Sub(c, a));
    DotSub(Sub(p, a), Sub(c, a), Sub(b, a));
    DotSub(Sub(p, a), Sub(c, a), Sub(c, a));
    DotFlip(Sub(b, a), Sub(c, a));
  }

  lemma CornersAreWeights(a: V3, b: V3, c: V3)
    ensures PointAt(a, b, c, 0.0, 0.0) == a && PointAt(a, b, c, 1.0, 0.0) == b && PointAt(a, b, c, 0.0, 1.0) == c
  {
  }

  lemma EdgesAreWeights(a: V3, b: V3, c: V3, s: real)
    ensures PointAt(a, b, c, s, 0.0) == Add(a, Scale(Sub(b, a), s))
    ensures PointAt(a, b, c, 0.0, s) == Add(a, Scale(Sub(c, a), s))
    ensures PointAt(a, b, c, 1.0 - s, s) == Add(b, Scale(Sub(c, b), s))
  {
    OnEdge(a.x, b.x, c.x, s);
    OnEdge(a.y, b.y, c.y, s);
    OnEdge(a.z, b.z, c.z, s);
  }

  lemma OnEdge(a: real, b: real, c: real, s: real)
    ensures a + (b - a) * s + (c - a) * 0.0 == a + (b - a) * s
    ensures a + (b - a) * 0.0 + (c - a) * s == a + (c - a) * s
    ensures a + (b - a) * (1.0 - s) + (c - a) * s == b + (c - b) * s
  {
  }

  /** The branch ClosestPoint takes, on the scalars. */
  datatype Branch = AtA | AtB | AtC | OnAB | OnAC | OnBC | OnFace

  function BranchOf(A: real, B: real, k: real, d1: real, d2: real): Branch {
    var d3, d4, d5, d6 := d1 - A, d2 - k, d1 - k, d2 - B;
    if d1 <= 0.0 && d2 <= 0.0 then AtA
    else if d3 >= 0.0 && d4 <= d3 then AtB
    else if A * d2 <= k * d1 && d1 >= 0.0 && d3 <= 0.0 then OnAB
    else if d6 >= 0.0 && d5 <= d6 then AtC
    else if B * d1 <= k * d2 && d2 >= 0.0 && d6 <= 0.0 then OnAC
    else if d3 * d6 <= d5 * d4 && d4 - d3 >= 0.0 && d5 - d6 >= 0.0 then OnBC
    else OnFace
  }

  lemma Minors(A: real, B: real, k: real, d1: real, d2: real)
    ensures var d3, d4, d5, d6 := d1 - A, d2 - k, d1 - k, d2 - B;
            d1 * d4 - d3 * d2 == A * d2 - k * d1 && d5 * d2 - d1 * d6 == B * d1 - k * d2
  {
  }

  /** Past the tests before it, an edge's denominator is its squared length, and only
      a == b leaves one that is zero. */
  lemma Denominators(A: real, B: real, k: real, d1: real, d2: real)
    requires Gram(A, B, k, d1, d2)
    ensures BranchOf(A, B, k, d1, d2) == OnAC ==> B > 0.0
    ensures BranchOf(A, B, k, d1, d2) == OnBC ==> A + B - 2.0 * k > 0.0
    ensures A == 0.0 ==> (BranchOf(A, B, k, d1, d2) == OnAB <==> d2 > 0.0)
    ensures A >= 0.0
  {
    if B == 0.0 { assert k * d1 == 0.0 && A * d2 == 0.0; }
    if A == 0.0 { assert k * d1 == 0.0 && A * d2 == 0.0; }
    if A + B - 2.0 * k == 0.0 { assert A * d2 == k * d1; }
  }

  function FootOf(a: V3, b: V3, c: V3, A: real, B: real, k: real, d1: real, d2: real): Option<Foot> {
    var vc, vb, va := A * d2 - k * d1, B * d1 - k * d2, (d1 - A) * (d2 - B) - (d1 - k) * (d2 - k);
    match BranchOf(A, B, k, d1, d2)
    case AtA => Some(Foot(a, Vertex, 0))
    case AtB => Some(Foot(b, Vertex, 1))
    case AtC => Some(Foot(c, Vertex, 2))
    case OnAB => Along(a, Sub(b, a), Over(d1, A), 0)
    case OnAC => Along(a, Sub(c, a), Over(d2, B), 2)
    case OnBC => Along(b, Sub(c, b), Over(d2 - k - (d1 - A), (d2 - k - (d1 - A)) + (d1 - k - (d2 - B))), 1)
    case OnFace => Inside(a, b, c, va, vb, vc)
  }

  lemma FootOnFace(a: V3, b: V3, c: V3, A: real, B: real, k: real, d1: real, d2: real, va: real, vb: real, vc: real)
    requires BranchOf(A, B, k, d1, d2) == OnFace
    requires va == (d1 - A) * (d2 - B) - (d1 - k) * (d2 - k) && vb == B * d1 - k * d2 && vc == A * d2 - k * d1
    ensures FootOf(a, b, c, A, B, k, d1, d2) == Inside(a, b, c, va, vb, vc)
  {
    hide BranchOf, Inside;
  }


  lemma RegionByScalars(a: V3, b: V3, c: V3, A: real, B: real, k: real, d1: real, d2: real)
    ensures Region6(a, b, c, d1, d2, d1 - A, d2 - k, d1 - k, d2 - B) == FootOf(a, b, c, A, B, k, d1, d2)
  {
    hide Sub, Add, Scale, Over, Along, Inside;
    Minors(A, B, k, d1, d2);
    assert d1 - (d1 - A) == A && d2 - (d2 - B) == B;
  }

  lemma ClosestPointByScalars(a: V3, b: V3, c: V3, p: V3, A: real, B: real, k: real, d1: real, d2: real)
    requires A == Dot(Sub(b, a), Sub(b, a)) && B == Dot(Sub(c, a), Sub(c, a)) && k == Dot(Sub(b, a), Sub(c, a))
    requires d1 == Dot(Sub(b, a), Sub(p, a)) && d2 == Dot(Sub(c, a), Sub(p, a))
    ensures ClosestPoint(a, b, c, p) == FootOf(a, b, c, A, B, k, d1, d2)
  {
    hide Dot, Sub, Region6, FootOf;
    DotsFromCorner(a, b, c, p);
    RegionByScalars(a, b, c, A, B, k, d1, d2);
  }

  /** A, B, k, d1 and d2 are the triangle's and p's dot products. */
  ghost predicate Scalars(a: V3, b: V3, c: V3, p: V3, A: real, B: real, k: real, d1: real, d2: real) {
    && A == Dot(Sub(b, a), Sub(b, a)) && B == Dot(Sub(c, a), Sub(c, a)) && k == Dot(Sub(b, a), Sub(c, a))
    && d1 == Dot(Sub(b, a), Sub(p, a)) && d2 == Dot(Sub(c, a), Sub(p, a))
    && Gram(A, B, k, d1, d2)
  }

  lemma NearestBy(a: V3, b: V3, c: V3, p: V3, s: real, t: real, A: real, B: real, k: real, d1: real, d2: real, e1: real, e2: real)
    requires Scalars(a, b, c, p, A, B, k, d1, d2) && e1 == d1 - s * A - t * k && e2 == d2 - s * k - t * B
    requires Weights(s, t) && Optimal(s, t, e1, e2)
    ensures IsNearest(a, b, c, p, PointAt(a, b, c, s, t))
  {
    hide Dot, Sub, PointAt, Optimal, IsNearest, Gram;
    FromScalars(a, b, c, p, s, t, A, B, k, d1, d2);
  }

  lemma VertexNearest(a: V3, b: V3, c: V3, p: V3, A: real, B: real, k: real, d1: real, d2: real)
    requires Scalars(a, b, c, p, A, B, k, d1, d2)
    ensures BranchOf(A, B, k, d1, d2) == AtA ==> IsNearest(a, b, c, p, a)
    ensures BranchOf(A, B, k, d1, d2) == AtB ==> IsNearest(a, b, c, p, b)
    ensures BranchOf(A, B, k, d1, d2) == AtC ==> IsNearest(a, b, c, p, c)
  {
    CornersAreWeights(a, b, c);
    hide Scalars, PointAt, IsNearest, Optimal;
    match BranchOf(A, B, k, d1, d2) {
      case AtA =>
        VertexOptimal(0.0, 0.0, d1, d2);
        NearestBy(a, b, c, p, 0.0, 0.0, A, B, k, d1, d2, d1, d2);
      case AtB =>
        VertexOptimal(1.0, 0.0, d1 - A, d2 - k);
        NearestBy(a, b, c, p, 1.0, 0.0, A, B, k, d1, d2, d1 - A, d2 - k);
      case AtC =>
        VertexOptimal(0.0, 1.0, d1 - k, d2 - B);
        NearestBy(a, b, c, p, 0.0, 1.0, A, B, k, d1, d2, d1 - k, d2 - B);
      case _ =>
    }
  }

  lemma ABNearest(a: V3, b: V3, c: V3, p: V3, A: real, B: real, k: real, d1: real, d2: real)
    requires Scalars(a, b, c, p, A, B, k, d1, d2) && BranchOf(A, B, k, d1, d2) == OnAB && A > 0.0
    ensures IsNearest(a, b, c, p, Add(a, Scale(Sub(b, a), d1 / A)))
  {
    hide Dot, PointAt, Sub, Add, Scale, IsNearest, Optimal, Gram;
    var s := EdgeABOptimal(A, B, k, d1, d2);
    EdgesAreWeights(a, b, c, s);
    NearestBy(a, b, c, p, s, 0.0, A, B, k, d1, d2, d1 - s * A - 0.0 * k, d2 - s * k - 0.0 * B);
  }

  lemma ACNearest(a: V3, b: V3, c: V3, p: V3, A: real, B: real, k: real, d1: real, d2: real)
    requires Scalars(a, b, c, p, A, B, k, d1, d2) && BranchOf(A, B, k, d1, d2) == OnAC && B > 0.0
    ensures IsNearest(a, b, c, p, Add(a, Scale(Sub(c, a), d2 / B)))
  {
    hide Dot, PointAt, Sub, Add, Scale, IsNearest, Optimal, Gram;
    var t := EdgeACOptimal(A, B, k, d1, d2);
    EdgesAreWeights(a, b, c, t);
    NearestBy(a, b, c, p, 0.0, t, A, B, k, d1, d2, d1 - 0.0 * A - t * k, d2 - 0.0 * k - t * B);
  }

  lemma BCNearest(a: V3, b: V3, c: V3, p: V3, A: real, B: real, k: real, d1: real, d2: real)
    requires Scalars(a, b, c, p, A, B, k, d1, d2) && BranchOf(A, B, k, d1, d2) == OnBC
    ensures (d2 - k - (d1 - A)) + (d1 - k - (d2 - B)) != 0.0
    ensures IsNearest(a, b, c, p, Add(b, Scale(Sub(c, b), (d2 - k - (d1 - A)) / ((d2 - k - (d1 - A)) + (d1 - k - (d2 - B))))))
  {
    hide Dot, PointAt, Sub, Add, Scale, IsNearest, Optimal, Gram;
    Denominators(A, B, k, d1, d2);
    var w := EdgeBCOptimal(A, B, k, d1, d2);
    EdgesAreWeights(a, b, c, w);
    NearestBy(a, b, c, p, 1.0 - w, w, A, B, k, d1, d2, d1 - (1.0 - w) * A - w * k, d2 - (1.0 - w) * k - w * B);
  }

  lemma FaceWeights(A: real, B: real, k: real, d1: real, d2: real) returns (s: real, t: real, den: real)
    requires Gram(A, B, k, d1, d2) && BranchOf(A, B, k, d1, d2) == OnFace
    ensures var va, vb, vc := (d1 - A) * (d2 - B) - (d1 - k) * (d2 - k), B * d1 - k * d2, A * d2 - k * d1;
            va + vb + vc != 0.0 && den == 1.0 / (va + vb + vc) && s == vb * den && t == vc * den
    ensures Weights(s, t) && Optimal(s, t, d1 - s * A - t * k, d2 - s * k - t * B)
  {
    InsideAB(A, B, k, d1, d2);
    InsideAC(A, B, k, d1, d2);
    InsideBC(A, B, k, d1, d2);
    hide Optimal, Gram;
    den := FaceOptimal(A, B, k, d1, d2);
    s, t := (B * d1 - k * d2) * den, (A * d2 - k * d1) * den;
  }

  lemma FaceNearest(a: V3, b: V3, c: V3, p: V3, A: real, B: real, k: real, d1: real, d2: real)
    requires Scalars(a, b, c, p, A, B, k, d1, d2) && BranchOf(A, B, k, d1, d2) == OnFace
    ensures FootOf(a, b, c, A, B, k, d1, d2).Some?
    ensures IsNearest(a, b, c, p, FootOf(a, b, c, A, B, k, d1, d2).value.point)
  {
    hide Dot, PointAt, Sub, Add, Scale, IsNearest, Optimal, Gram, BranchOf, Weights, Inside, FootOf;
    var s, t, den := FaceWeights(A, B, k, d1, d2);
    var va, vb, vc := (d1 - A) * (d2 - B) - (d1 - k) * (d2 - k), B * d1 - k * d2, A * d2 - k * d1;
    FootOnFace(a, b, c, A, B, k, d1, d2, va, vb, vc);
    InsideBy(a, b, c, va, vb, vc, den, s, t);
    NearestBy(a, b, c, p, s, t, A, B, k, d1, d2, d1 - s * A - t * k, d2 - s * k - t * B);
  }

  lemma InsideBy(a: V3, b: V3, c: V3, va: real, vb: real, vc: real, den: real, s: real, t: real)
    requires va + vb + vc != 0.0 && den == 1.0 / (va + vb + vc) && s == vb * den && t == vc * den
    ensures Inside(a, b, c, va, vb, vc) == Some(Foot(PointAt(a, b, c, s, t), Face, 0))
  {
    hide Sub, Add, Scale, InsideAt;
    assert Over(1.0, va + vb + vc) == Some(den);
    InsideAtBy(a, b, c, vb, vc, den, s, t);
  }

  lemma InsideAtBy(a: V3, b: V3, c: V3, vb: real, vc: real, den: real, s: real, t: real)
    requires s == vb * den && t == vc * den
    ensures InsideAt(a, b, c, vb, vc, den) == Foot(PointAt(a, b, c, s, t), Face, 0)
  {
    hide Sub, Add, Scale;
  }

  lemma FootIsNearest(a: V3, b: V3, c: V3, p: V3, A: real, B: real, k: real, d1: real, d2: real)
    requires Scalars(a, b, c, p, A, B, k, d1, d2)
    ensures FootOf(a, b, c, A, B, k, d1, d2).None? <==> A == 0.0 && d2 > 0.0
    ensures FootOf(a, b, c, A, B, k, d1, d2).Some? ==> IsNearest(a, b, c, p, FootOf(a, b, c, A, B, k, d1, d2).value.point)
  {
    hide Dot, Sub, Add, Scale, IsNearest;
    Denominators(A, B, k, d1, d2);
    hide Gram;
    VertexNearest(a, b, c, p, A, B, k, d1, d2);
    if BranchOf(A, B, k, d1, d2) == OnAB && A > 0.0 { ABNearest(a, b, c, p, A, B, k, d1, d2); }
    if BranchOf(A, B, k, d1, d2) == OnAC { ACNearest(a, b, c, p, A, B, k, d1, d2); }
    if BranchOf(A, B, k, d1, d2) == OnBC { BCNearest(a, b, c, p, A, B, k, d1, d2); }
    if BranchOf(A, B, k, d1, d2) == OnFace { FaceNearest(a, b, c, p, A, B, k, d1, d2); }
  }

  lemma VertexOptimal(s: real, t: real, e1: real, e2: real)
    requires (s == 0.0 && t == 0.0 && e1 <= 0.0 && e2 <= 0.0) || (s == 1.0 && t == 0.0 && e1 >= 0.0 && e2 <= e1) || (s == 0.0 && t == 1.0 && e2 >= 0.0 && e1 <= e2)
    ensures Optimal(s, t, e1, e2)
  {
  }

  /** closestInTri finds the nearest point of every triangle, except when a == b and p
      lies beyond a towards c: there an edge of length zero is divided by. */
  lemma ClosestPointIsNearest(a: V3, b: V3, c: V3, p: V3)
    ensures ClosestPoint(a, b, c, p).None? <==> a == b && Dot(Sub(c, a), Sub(p, a)) > 0.0
    ensures ClosestPoint(a, b, c, p).Some? ==> IsNearest(a, b, c, p, ClosestPoint(a, b, c, p).value.point)
  {
    hide Dot, Sub, IsNearest, ClosestPoint, FootOf, Gram;
    var ab, ac, ap := Sub(b, a), Sub(c, a), Sub(p, a);
    var A, B, k, d1, d2 := Dot(ab, ab), Dot(ac, ac), Dot(ab, ac), Dot(ab, ap), Dot(ac, ap);
    GramOf(ab, ac, ap);
    ClosestPointByScalars(a, b, c, p, A, B, k, d1, d2);
    FootIsNearest(a, b, c, p, A, B, k, d1, d2);
    NoEdge(a, b);
  }

  const ORIGIN := V3(0.0, 0.0, 0.0)
  const ONE_ALONG_X := V3(1.0, 0.0, 0.0)

  lemma UnitDots()
    ensures Dot(Sub(ONE_ALONG_X, ORIGIN), Sub(ONE_ALONG_X, ORIGIN)) == 1.0 && Dist2(ONE_ALONG_X, ONE_ALONG_X) == 0.0
  {
  }

  lemma CornerInside(a: V3, b: V3, c: V3)
    ensures InTriangle(a, b, c, c)
  {
    CornersAreWeights(a, b, c);
    assert Weights(0.0, 1.0);
  }

  /** A triangle missed: a and b at the origin, c and the query one step along x. Its
      corner c is the query itself. */
  lemma CollapsedEdgeMisses()
    ensures ClosestPoint(ORIGIN, ORIGIN, ONE_ALONG_X, ONE_ALONG_X).None?
    ensures InTriangle(ORIGIN, ORIGIN, ONE_ALONG_X, ONE_ALONG_X) && Dist2(ONE_ALONG_X, ONE_ALONG_X) == 0.0
  {
    hide *;
    UnitDots();
    ClosestPointIsNearest(ORIGIN, ORIGIN, ONE_ALONG_X, ONE_ALONG_X);
    CornerInside(ORIGIN, ORIGIN, ONE_ALONG_X);
  }

  lemma NoEdge(a: V3, b: V3)
    ensures Dot(Sub(b, a), Sub(b, a)) == 0.0 <==> a == b
  {
    DotSelf(Sub(b, a));
    if Sub(b, a) == V3(0.0, 0.0, 0.0) { SubZero(b, a); }
  }

  ghost predicate OnSegment(u: V3, w: V3, q: V3) {
    exists s :: 0.0 <= s <= 1.0 && q == Add(u, Scale(Sub(w, u), s))
  }

  /** The point lies on the vertex or edge the foot names. */
  ghost predicate OnRegion(a: V3, b: V3, c: V3, foot: Foot) {
    match foot.region
    case Vertex => foot.sub < 3 && foot.point == [a, b, c][foot.sub]
    case Edge => foot.sub < 3 && OnSegment([a, b, a][foot.sub], [b, c, c][foot.sub], foot.point)
    case Face => InTriangle(a, b, c, foot.point)
  }

  /** The region that picks the pseudo-normal is the one the point lies on. */
  lemma ClosestPointOnRegion(a: V3, b: V3, c: V3, p: V3)
    requires ClosestPoint(a, b, c, p).Some?
    ensures OnRegion(a, b, c, ClosestPoint(a, b, c, p).value)
  {
    ClosestPointIsNearest(a, b, c, p);
    hide Dot, Sub, Add, Scale, ClosestPoint, PointAt, InTriangle;
    var ab, ac, ap := Sub(b, a), Sub(c, a), Sub(p, a);
    var A, B, k, d1, d2 := Dot(ab, ab), Dot(ac, ac), Dot(ab, ac), Dot(ab, ap), Dot(ac, ap);
    GramOf(ab, ac, ap);
    ClosestPointByScalars(a, b, c, p, A, B, k, d1, d2);
    FootOnRegion(a, b, c, A, B, k, d1, d2);
  }

  lemma FootOnRegion(a: V3, b: V3, c: V3, A: real, B: real, k: real, d1: real, d2: real)
    requires Gram(A, B, k, d1, d2) && FootOf(a, b, c, A, B, k, d1, d2).Some?
    ensures FootOf(a, b, c, A, B, k, d1, d2).value.region == Face || OnRegion(a, b, c, FootOf(a, b, c, A, B, k, d1, d2).value)
  {
    hide Sub, Add, Scale;
    Denominators(A, B, k, d1, d2);
    match BranchOf(A, B, k, d1, d2) {
      case OnAB => var s := Quotient(d1, A);
      case OnAC => var s := Quotient(d2, B);
      case OnBC => var s := Quotient(d2 - k - (d1 - A), (d2 - k - (d1 - A)) + (d1 - k - (d2 - B)));
      case _ =>
    }
  }
}
