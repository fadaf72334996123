/** curvenet weld(): joining vertices through a hash grid. */
module Weld {

  // Vertices within eps of a representative join it; cells have size eps.

  import opened Options

  datatype P3 = P3(x: real, y: real, z: real)

  /** A grid cell, and a hash of cells; nothing is assumed of the hash. */
  datatype Cell = Cell(x: int, y: int, z: int)
  type Hash = Cell -> int

  /** Hash values to the representatives filed under them. */
  type Grid = map<int, seq<nat>>

  function Bucket(grid: Grid, h: int): seq<nat> {
    if h in grid then grid[h] else []
  }

  function Dist2(p: P3, q: P3): real {
    (p.x - q.x) * (p.x - q.x) + (p.y - q.y) * (p.y - q.y) + (p.z - q.z) * (p.z - q.z)
  }

  predicate Near(p: P3, q: P3, eps: real) {
    Dist2(p, q) <= eps * eps
  }

  function CellAt(x: real, eps: real): int
    requires eps > 0.0
  {
    (x / eps).Floor
  }

  function CellOf(p: P3, eps: real): Cell
    requires eps > 0.0
  {
    Cell(CellAt(p.x, eps), CellAt(p.y, eps), CellAt(p.z, eps))
  }

  /** The i-th of the 27 neighbouring cells, x slowest. */
  function Neighbour(c: Cell, i: nat): Cell
    requires i < 27
  {
    Cell(c.x + i / 9 - 1, c.y + i / 3 % 3 - 1, c.z + i % 3 - 1)
  }

  // --- 27 cells suffice ------------------------------------------------------------------------

  lemma Scaled(a: real, b: real, eps: real)
    requires eps > 0.0 && a - b <= eps
    ensures a / eps <= b / eps + 1.0
  {
    var q, r := a / eps, b / eps;
    assert q * eps == a && r * eps == b;
    if q > r + 1.0 { TimesLess(r + 1.0, q, eps); }
  }

  lemma TimesLess(x: real, y: real, eps: real)
    requires x < y && eps > 0.0
    ensures x * eps < y * eps
  {
  }

  /** Coordinates within eps are in the same or adjacent cells. */
  lemma CellsAdjacent(a: real, b: real, eps: real)
    requires eps > 0.0 && -eps <= a - b <= eps
    ensures -1 <= CellAt(a, eps) - CellAt(b, eps) <= 1
  {
    Scaled(a, b, eps);
    Scaled(b, a, eps);
  }

  lemma WithinEps(d: real, eps: real, rest: real)
    requires eps > 0.0 && d * d + rest <= eps * eps && rest >= 0.0
    ensures -eps <= d <= eps
  {
    if d > eps {
      LessSquare(eps, d);
    } else if d < -eps {
      LessSquareNeg(eps, d);
    }
  }

  lemma LessSquareNeg(x: real, d: real)
    requires 0.0 < x < -d
    ensures x * x < d * d
  {
    LessSquare(x, -d);
    assert (-d) * (-d) == d * d;
  }

  lemma LessSquare(x: real, y: real)
    requires 0.0 < x < y
    ensures x * x < y * y
  {
    TimesLess(x, y, y);
    TimesLess(x, y, x);
    assert x * y == y * x;
  }

  lemma Square(r: real)
    ensures r * r >= 0.0
  {
  }

  /** Every point within eps of p lies in one of the 27 cells around p's. */
  lemma NearIsNeighbour(p: P3, q: P3, eps: real) returns (i: nat)
    requires eps > 0.0 && Near(p, q, eps)
    ensures i < 27 && Neighbour(CellOf(p, eps), i) == CellOf(q, eps)
  {
    var dx, dy, dz := p.x - q.x, p.y - q.y, p.z - q.z;
    Square(dx);
    Square(dy);
    Square(dz);
    WithinEps(dx, eps, dy * dy + dz * dz);
    WithinEps(dy, eps, dx * dx + dz * dz);
    WithinEps(dz, eps, dx * dx + dy * dy);
    CellsAdjacent(p.x, q.x, eps);
    CellsAdjacent(p.y, q.y, eps);
    CellsAdjacent(p.z, q.z, eps);
    hide CellAt;
    var c, d := CellOf(p, eps), CellOf(q, eps);
    i := 9 * (d.x - c.x + 1) + 3 * (d.y - c.y + 1) + (d.z - c.z + 1);
    Digits(d.x - c.x + 1, d.y - c.y + 1, d.z - c.z + 1);
  }

  lemma Digits(a: int, b: int, c: int)
    requires 0 <= a < 3 && 0 <= b < 3 && 0 <= c < 3
    ensures var i := 9 * a + 3 * b + c; 0 <= i < 27 && i / 9 == a && i / 3 % 3 == b && i % 3 == c
  {
  }

  // --- finding a representative --------------------------------------------------------------------

  /** The least representative of the bucket within eps of p. */
  ghost predicate IsHit(bucket: seq<nat>, reps: seq<P3>, p: P3, eps: real, r: nat) {
    r in bucket && r < |reps| && Near(p, reps[r], eps)
  }

  ghost predicate LeastHit(bucket: seq<nat>, reps: seq<P3>, p: P3, eps: real, found: Option<nat>) {
    match found
    case None => forall r :: !IsHit(bucket, reps, p, eps, r)
    case Some(r) => IsHit(bucket, reps, p, eps, r) && forall s :: IsHit(bucket, reps, p, eps, s) ==> r <= s
  }

  predicate Files(bucket: seq<nat>, reps: seq<P3>) {
    forall k :: 0 <= k < |bucket| ==> bucket[k] < |reps|
  }

  method SearchBucket(bucket: seq<nat>, reps: seq<P3>, p: P3, eps: real) returns (found: Option<nat>)
    requires Files(bucket, reps)
    ensures LeastHit(bucket, reps, p, eps, found)
  {
    hide Near;
    found := None;
    for k := 0 to |bucket|
      invariant LeastHit(bucket[..k], reps, p, eps, found)
    {
      assert bucket[..k + 1] == bucket[..k] + [bucket[k]];
      var r := bucket[k];
      OneMoreHit(bucket[..k], reps, p, eps, found, r);
      if Near(p, reps[r], eps) && (found.None? || r < found.value) {
        found := Some(r);
      }
    }
    assert bucket[..|bucket|] == bucket;
  }

  lemma OneMoreHit(bucket: seq<nat>, reps: seq<P3>, p: P3, eps: real, found: Option<nat>, r: nat)
    requires LeastHit(bucket, reps, p, eps, found) && r < |reps|
    ensures LeastHit(bucket + [r], reps, p, eps, if Near(p, reps[r], eps) && (found.None? || r < found.value) then Some(r) else found)
  {
    hide Near;
    forall s: nat ensures IsHit(bucket + [r], reps, p, eps, s) <==> IsHit(bucket, reps, p, eps, s) || (s == r && Near(p, reps[r], eps)) {
    }
  }

  /** The least hit of the first of the 27 cells, from the i-th on, whose bucket has one. */
  ghost predicate FirstHit(grid: Grid, reps: seq<P3>, key: Hash, p: P3, eps: real, i: nat, found: Option<nat>)
    requires eps > 0.0 && i <= 27
    decreases 27 - i
  {
    if i == 27 then found == None
    else
      var bucket := Bucket(grid, key(Neighbour(CellOf(p, eps), i)));
      (found.Some? && LeastHit(bucket, reps, p, eps, found))
      || (LeastHit(bucket, reps, p, eps, None) && FirstHit(grid, reps, key, p, eps, i + 1, found))
  }

  /** The grid files every representative under its cell, and nothing else. */
  ghost predicate Filed(grid: Grid, reps: seq<P3>, key: Hash, eps: real)
    requires eps > 0.0
  {
    && (forall h :: Files(Bucket(grid, h), reps))
    && (forall r :: 0 <= r < |reps| ==> r in Bucket(grid, key(CellOf(reps[r], eps))))
  }

  method FindRep(grid: Grid, reps: seq<P3>, key: Hash, p: P3, eps: real) returns (found: Option<nat>)
    requires eps > 0.0 && forall h :: Files(Bucket(grid, h), reps)
    ensures FirstHit(grid, reps, key, p, eps, 0, found)
  {
    hide LeastHit, Files, CellOf, Neighbour, Bucket;
    found := None;
    var c := CellOf(p, eps);
    var i := 0;
    while i < 27 && found.None?
      invariant i <= 27
      invariant found.None? ==> forall x :: FirstHit(grid, reps, key, p, eps, i, x) ==> FirstHit(grid, reps, key, p, eps, 0, x)
      invariant found.Some? ==> FirstHit(grid, reps, key, p, eps, 0, found)
    {
      assert Files(Bucket(grid, key(Neighbour(c, i))), reps);
      found := SearchBucket(Bucket(grid, key(Neighbour(c, i))), reps, p, eps);
      i := i + 1;
    }
    if found.None? { assert FirstHit(grid, reps, key, p, eps, 27, None); }
  }

  /** A search finds a representative within eps exactly when there is one, whatever the
      hash. */
  lemma {:induction false} FindsNear(grid: Grid, reps: seq<P3>, key: Hash, p: P3, eps: real, i: nat, found: Option<nat>)
    requires eps > 0.0 && i <= 27 && FirstHit(grid, reps, key, p, eps, i, found)
    ensures found.Some? ==> found.value < |reps| && Near(p, reps[found.value], eps)
    ensures found.None? ==> forall j, r :: i <= j < 27 ==> !IsHit(Bucket(grid, key(Neighbour(CellOf(p, eps), j))), reps, p, eps, r)
    decreases 27 - i
  {
    hide Near, CellOf, Neighbour, Bucket;
    if i < 27 {
      var bucket := Bucket(grid, key(Neighbour(CellOf(p, eps), i)));
      if !(found.Some? && LeastHit(bucket, reps, p, eps, found)) {
        FindsNear(grid, reps, key, p, eps, i + 1, found);
      }
    }
  }

  lemma NoneMeansFar(grid: Grid, reps: seq<P3>, key: Hash, p: P3, eps: real)
    requires eps > 0.0 && Filed(grid, reps, key, eps) && FirstHit(grid, reps, key, p, eps, 0, None)
    ensures forall r :: 0 <= r < |reps| ==> !Near(p, reps[r], eps)
  {
    hide Near, CellOf, Neighbour, Bucket, FirstHit;
    FindsNear(grid, reps, key, p, eps, 0, None);
    forall r | 0 <= r < |reps| ensures !Near(p, reps[r], eps) {
      if Near(p, reps[r], eps) {
        var i := NearIsFiled(grid, reps, key, p, eps, r);
      }
    }
  }

  /** A representative within eps is in the bucket of one of the 27 cells. */
  lemma NearIsFiled(grid: Grid, reps: seq<P3>, key: Hash, p: P3, eps: real, r: nat) returns (i: nat)
    requires eps > 0.0 && Filed(grid, reps, key, eps) && r < |reps| && Near(p, reps[r], eps)
    ensures i < 27 && IsHit(Bucket(grid, key(Neighbour(CellOf(p, eps), i))), reps, p, eps, r)
  {
    hide Near, CellOf, Neighbour, Bucket;
    i := NearIsNeighbour(p, reps[r], eps);
  }

  // --- welding ----------------------------------------------------------------------------------------

  /** Representatives are pairwise more than eps apart. */
  ghost predicate Spread(reps: seq<P3>, eps: real) {
    forall a, b :: 0 <= a < b < |reps| ==> !Near(reps[b], reps[a], eps)
  }

  /** Each vertex is within eps of the representative it maps to, and each representative
      is the first vertex that maps to it. */
  ghost predicate Welded(v: seq<P3>, remap: seq<nat>, reps: seq<P3>, eps: real)
    requires |remap| <= |v|
  {
    && (forall i :: 0 <= i < |remap| ==> remap[i] < |reps| && Near(v[i], reps[remap[i]], eps))
    && (forall r :: 0 <= r < |reps| ==> IsFirst(v, remap, reps, r))
  }

  ghost predicate IsFirst(v: seq<P3>, remap: seq<nat>, reps: seq<P3>, r: nat)
    requires |remap| <= |v| && r < |reps|
  {
    exists i :: 0 <= i < |remap| && remap[i] == r && v[i] == reps[r] && forall j :: 0 <= j < i ==> remap[j] < r
  }

  lemma FileNew(grid: Grid, reps: seq<P3>, key: Hash, eps: real, p: P3)
    requires eps > 0.0 && Filed(grid, reps, key, eps)
    ensures var h := key(CellOf(p, eps));
            Filed(grid[h := Bucket(grid, h) + [|reps|]], reps + [p], key, eps)
  {
    hide CellOf;
    var h := key(CellOf(p, eps));
    var grid', reps' := grid[h := Bucket(grid, h) + [|reps|]], reps + [p];
    forall g ensures Files(Bucket(grid', g), reps') {
      assert Files(Bucket(grid, g), reps);
    }
    forall r | 0 <= r < |reps'| ensures r in Bucket(grid', key(CellOf(reps'[r], eps))) {
      if r < |reps| {
        assert r in Bucket(grid, key(CellOf(reps[r], eps)));
      }
    }
  }

  lemma SelfNear(p: P3, eps: real)
    ensures Near(p, p, eps)
  {
    Square(eps);
  }

  lemma JoinRep(v: seq<P3>, remap: seq<nat>, reps: seq<P3>, eps: real, r: nat)
    requires |remap| < |v| && Welded(v, remap, reps, eps) && r < |reps| && Near(v[|remap|], reps[r], eps)
    ensures Welded(v, remap + [r], reps, eps)
  {
    hide Near;
    forall s | 0 <= s < |reps| ensures IsFirst(v, remap + [r], reps, s) {
      assert IsFirst(v, remap, reps, s);
      var i :| 0 <= i < |remap| && remap[i] == s && v[i] == reps[s] && forall j :: 0 <= j < i ==> remap[j] < s;
      assert (remap + [r])[i] == s;
    }
  }

  lemma NewRep(v: seq<P3>, remap: seq<nat>, reps: seq<P3>, eps: real)
    requires |remap| < |v| && Welded(v, remap, reps, eps) && Spread(reps, eps)
    requires forall r :: 0 <= r < |reps| ==> !Near(v[|remap|], reps[r], eps)
    ensures Welded(v, remap + [|reps|], reps + [v[|remap|]], eps) && Spread(reps + [v[|remap|]], eps)
  {
    var p, n := v[|remap|], |reps|;
    SelfNear(p, eps);
    hide Near;
    forall s | 0 <= s <= n ensures IsFirst(v, remap + [n], reps + [p], s) {
      if s < n {
        assert IsFirst(v, remap, reps, s);
        var i :| 0 <= i < |remap| && remap[i] == s && v[i] == reps[s] && forall j :: 0 <= j < i ==> remap[j] < s;
        assert (remap + [n])[i] == s;
      } else {
        assert (remap + [n])[|remap|] == n;
      }
    }
  }

  // --- weld, vertex by vertex -------------------------------------------------------------------

  /** What a search finds, as a function: the least hit of a bucket, and of the first of
      the cells that has one. */
  function LeastIn(bucket: seq<nat>, reps: seq<P3>, p: P3, eps: real): (found: Option<nat>)
    requires Files(bucket, reps)
    ensures LeastHit(bucket, reps, p, eps, found)
  {
    if bucket == [] then None
    else
      var k := |bucket| - 1;
      var found := LeastIn(bucket[..k], reps, p, eps);
      assert bucket[..k] + [bucket[k]] == bucket;
      OneMoreHit(bucket[..k], reps, p, eps, found, bucket[k]);
      if Near(p, reps[bucket[k]], eps) && (found.None? || bucket[k] < found.value) then Some(bucket[k]) else found
  }

  function FirstFrom(grid: Grid, reps: seq<P3>, key: Hash, p: P3, eps: real, i: nat): (found: Option<nat>)
    requires eps > 0.0 && i <= 27 && forall h :: Files(Bucket(grid, h), reps)
    ensures FirstHit(grid, reps, key, p, eps, i, found)
    decreases 27 - i
  {
    if i == 27 then None
    else
      var found := LeastIn(Bucket(grid, key(Neighbour(CellOf(p, eps), i))), reps, p, eps);
      if found.Some? then found else FirstFrom(grid, reps, key, p, eps, i + 1)
  }

  lemma LeastHitUnique(bucket: seq<nat>, reps: seq<P3>, p: P3, eps: real, a: Option<nat>, b: Option<nat>)
    requires LeastHit(bucket, reps, p, eps, a) && LeastHit(bucket, reps, p, eps, b)
    ensures a == b
  {
    hide Near;
  }

  lemma {:induction false} FirstHitUnique(grid: Grid, reps: seq<P3>, key: Hash, p: P3, eps: real, i: nat, a: Option<nat>, b: Option<nat>)
    requires eps > 0.0 && i <= 27 && FirstHit(grid, reps, key, p, eps, i, a) && FirstHit(grid, reps, key, p, eps, i, b)
    ensures a == b
    decreases 27 - i
  {
    hide Near, CellOf, Neighbour, Bucket, LeastHit;
    if i < 27 {
      var bucket := Bucket(grid, key(Neighbour(CellOf(p, eps), i)));
      if a != None && b != None && LeastHit(bucket, reps, p, eps, a) && LeastHit(bucket, reps, p, eps, b) {
        LeastHitUnique(bucket, reps, p, eps, a, b);
      } else if LeastHit(bucket, reps, p, eps, a) && a != None {
        LeastHitUnique(bucket, reps, p, eps, a, None);
      } else if LeastHit(bucket, reps, p, eps, b) && b != None {
        LeastHitUnique(bucket, reps, p, eps, b, None);
      } else {
        FirstHitUnique(grid, reps, key, p, eps, i + 1, a, b);
      }
    }
  }

  /** The grid, the representatives and the map after some vertices. */
  datatype Weld = Weld(grid: Grid, reps: seq<P3>, remap: seq<nat>)

  /** weld() of the first n vertices. */
  function WeldOf(v: seq<P3>, key: Hash, eps: real, n: nat): (w: Weld)
    requires eps > 0.0 && n <= |v|
    ensures Filed(w.grid, w.reps, key, eps) && |w.remap| == n
  {
    if n == 0 then Weld(map[], [], [])
    else
      var w := WeldOf(v, key, eps, n - 1);
      var found := FirstFrom(w.grid, w.reps, key, v[n - 1], eps, 0);
      if found.Some? then Weld(w.grid, w.reps, w.remap + [found.value])
      else
        var h := key(CellOf(v[n - 1], eps));
        FileNew(w.grid, w.reps, key, eps, v[n - 1]);
        Weld(w.grid[h := Bucket(w.grid, h) + [|w.reps|]], w.reps + [v[n - 1]], w.remap + [|w.reps|])
  }

  /** Every vertex maps to a representative within eps, and representatives are pairwise
      farther apart. */
  lemma {:induction false} WeldOfWelds(v: seq<P3>, key: Hash, eps: real, n: nat)
    requires eps > 0.0 && n <= |v|
    ensures var w := WeldOf(v, key, eps, n); Welded(v, w.remap, w.reps, eps) && Spread(w.reps, eps)
  {
    hide Welded, Spread, Near, CellOf, FirstHit, Filed, Bucket;
    if n == 0 {
      NothingWelded(v, key, eps);
    } else {
      WeldOfWelds(v, key, eps, n - 1);
      var w, p := WeldOf(v, key, eps, n - 1), v[n - 1];
      FiledFiles(w.grid, w.reps, key, eps);
      var found := FirstFrom(w.grid, w.reps, key, p, eps, 0);
      if found.None? {
        NoneMeansFar(w.grid, w.reps, key, p, eps);
        NewRep(v, w.remap, w.reps, eps);
      } else {
        FindsNear(w.grid, w.reps, key, p, eps, 0, found);
        JoinRep(v, w.remap, w.reps, eps, found.value);
      }
    }
  }

  lemma WeldNext(v: seq<P3>, key: Hash, eps: real, i: nat, found: Option<nat>)
    requires eps > 0.0 && i < |v|
    requires var w := WeldOf(v, key, eps, i); FirstHit(w.grid, w.reps, key, v[i], eps, 0, found)
    ensures var w := WeldOf(v, key, eps, i);
            var h := key(CellOf(v[i], eps));
            WeldOf(v, key, eps, i + 1) ==
            if found.Some? then Weld(w.grid, w.reps, w.remap + [found.value])
            else Weld(w.grid[h := Bucket(w.grid, h) + [|w.reps|]], w.reps + [v[i]], w.remap + [|w.reps|])
  {
    hide CellOf, FirstHit, Filed, Bucket, Near;
    var w := WeldOf(v, key, eps, i);
    FiledFiles(w.grid, w.reps, key, eps);
    FirstHitUnique(w.grid, w.reps, key, v[i], eps, 0, found, FirstFrom(w.grid, w.reps, key, v[i], eps, 0));
  }

  method Identity(n: nat) returns (remap: seq<nat>)
    ensures |remap| == n && forall i :: 0 <= i < n ==> remap[i] == i
  {
    remap := [];
    for i := 0 to n
      invariant |remap| == i && forall j :: 0 <= j < i ==> remap[j] == j
    {
      remap := remap + [i];
    }
  }

  method WeldVertices(v: seq<P3>, eps: real, key: Hash) returns (remap: seq<nat>, reps: seq<P3>)
    ensures |remap| == |v|
    ensures eps <= 0.0 ==> reps == v && forall i :: 0 <= i < |v| ==> remap[i] == i
    ensures eps > 0.0 ==> Welded(v, remap, reps, eps) && Spread(reps, eps)
    ensures eps > 0.0 ==> remap == WeldOf(v, key, eps, |v|).remap && reps == WeldOf(v, key, eps, |v|).reps
  {
    if eps <= 0.0 {
      remap := Identity(|v|);
      return remap, v;
    }
    hide Welded, Spread, WeldOf;
    WeldNothing(v, key, eps);
    var w := Weld(map[], [], []);
    for i := 0 to |v|
      invariant w == WeldOf(v, key, eps, i)
    {
      w := WeldOne(w, v, key, eps, i);
    }
    WeldOfWelds(v, key, eps, |v|);
    return w.remap, w.reps;
  }

  /** One vertex joins what its search finds, or becomes a representative. */
  method WeldOne(w: Weld, v: seq<P3>, key: Hash, eps: real, i: nat) returns (w': Weld)
    requires eps > 0.0 && i < |v| && w == WeldOf(v, key, eps, i)
    ensures w' == WeldOf(v, key, eps, i + 1)
  {
    FiledFiles(w.grid, w.reps, key, eps);
    hide CellOf, FirstHit, Filed, Bucket, Files, WeldOf;
    var found := FindRep(w.grid, w.reps, key, v[i], eps);
    WeldNext(v, key, eps, i, found);
    if found.None? {
      var h := key(CellOf(v[i], eps));
      return Weld(w.grid[h := Bucket(w.grid, h) + [|w.reps|]], w.reps + [v[i]], w.remap + [|w.reps|]);
    }
    return w.(remap := w.remap + [found.value]);
  }

  lemma WeldNothing(v: seq<P3>, key: Hash, eps: real)
    requires eps > 0.0
    ensures WeldOf(v, key, eps, 0) == Weld(map[], [], [])
  {
  }

  lemma FiledFiles(grid: Grid, reps: seq<P3>, key: Hash, eps: real)
    requires eps > 0.0 && Filed(grid, reps, key, eps)
    ensures forall h :: Files(Bucket(grid, h), reps)
  {
    hide Files, Bucket;
  }

  lemma NothingWelded(v: seq<P3>, key: Hash, eps: real)
    requires eps > 0.0
    ensures Welded(v, [], [], eps) && Spread([], eps) && Filed(map[], [], key, eps)
  {
  }

  // --- which representative is joined -------------------------------------------------------------

  /** The first earlier representative within eps. */
  ghost predicate IsEarliest(reps: seq<P3>, p: P3, eps: real, first: nat) {
    first < |reps| && Near(p, reps[first], eps) && forall r :: 0 <= r < first ==> !Near(p, reps[r], eps)
  }

  /** Some cell's bucket holds first, and no bucket of a cell before it holds a hit. */
  ghost predicate ReachedFirst(grid: Grid, reps: seq<P3>, key: Hash, p: P3, eps: real, first: nat)
    requires eps > 0.0
  {
    exists j: nat :: j < 27 && HoldsFirst(grid, reps, key, p, eps, first, j)
  }

  ghost predicate HoldsFirst(grid: Grid, reps: seq<P3>, key: Hash, p: P3, eps: real, first: nat, j: nat)
    requires eps > 0.0 && j < 27
  {
    && first in Bucket(grid, key(Neighbour(CellOf(p, eps), j)))
    && forall l: nat, r :: l < j ==> !IsHit(Bucket(grid, key(Neighbour(CellOf(p, eps), l))), reps, p, eps, r)
  }

  /** From the i-th cell on: the search returns first exactly when it meets it first. */
  lemma {:induction false} ReachesFirst(grid: Grid, reps: seq<P3>, key: Hash, p: P3, eps: real, first: nat, i: nat, found: Option<nat>)
    requires eps > 0.0 && i <= 27 && IsEarliest(reps, p, eps, first) && FirstHit(grid, reps, key, p, eps, i, found)
    requires forall l: nat, r :: l < i ==> !IsHit(Bucket(grid, key(Neighbour(CellOf(p, eps), l))), reps, p, eps, r)
    ensures found == Some(first) <==> exists j: nat :: i <= j < 27 && HoldsFirst(grid, reps, key, p, eps, first, j)
    decreases 27 - i
  {
    hide Near, CellOf, Neighbour, Bucket;
    if i < 27 {
      var bucket := Bucket(grid, key(Neighbour(CellOf(p, eps), i)));
      if found.Some? && LeastHit(bucket, reps, p, eps, found) {
        if found == Some(first) { assert HoldsFirst(grid, reps, key, p, eps, first, i); }
        forall j: nat | i <= j < 27 && HoldsFirst(grid, reps, key, p, eps, first, j) ensures found == Some(first) {
          if j == i { assert IsHit(bucket, reps, p, eps, first) && IsHit(bucket, reps, p, eps, found.value); }
        }
      } else {
        ReachesFirst(grid, reps, key, p, eps, first, i + 1, found);
        assert first in bucket ==> IsHit(bucket, reps, p, eps, first);
      }
    }
  }

  /** A vertex joins the first earlier representative within eps if and only if the scan
      of the cells reaches a bucket with it before any other bucket with a hit. */
  lemma JoinsEarliestExactly(v: seq<P3>, key: Hash, eps: real, i: nat, first: nat)
    requires eps > 0.0 && i < |v| && IsEarliest(WeldOf(v, key, eps, i).reps, v[i], eps, first)
    ensures var w := WeldOf(v, key, eps, i);
            WeldOf(v, key, eps, i + 1).remap[i] == first <==> ReachedFirst(w.grid, w.reps, key, v[i], eps, first)
  {
    hide Near, CellOf, Neighbour, Bucket, FirstHit, HoldsFirst;
    var w := WeldOf(v, key, eps, i);
    var found := FirstFrom(w.grid, w.reps, key, v[i], eps, 0);
    ReachesFirst(w.grid, w.reps, key, v[i], eps, first, 0, found);
    if found.None? {
      NoneMeansFar(w.grid, w.reps, key, v[i], eps);
      assert false;
    }
  }

  /** The map of a vertex does not change after it. */
  lemma {:induction false} MapStays(v: seq<P3>, key: Hash, eps: real, i: nat, n: nat)
    requires eps > 0.0 && i < n <= |v|
    ensures WeldOf(v, key, eps, n).remap[i] == WeldOf(v, key, eps, i + 1).remap[i]
    decreases n
  {
    hide FirstFrom, CellOf, Bucket, Filed;
    if i + 1 < n { MapStays(v, key, eps, i, n - 1); }
  }

  // --- a vertex that joins a later representative ----------------------------------------------

  function Low(x: int): (r: int)
    ensures 0 <= r < 0x1_0000_0000_0000_0000
  {
    x % 0x1_0000_0000_0000_0000
  }

  /** A cell coordinate as a 64-bit word. */
  function Word(x: int): bv64 {
    if x >= 0 then Low(x) as bv64 else 0 - (Low(-x) as bv64)
  }

  /** The source's hash: products that wrap, joined bit by bit. */
  function XorKey(c: Cell): int {
    ((Word(c.x) * 73856093) ^ (Word(c.y) * 19349663) ^ (Word(c.z) * 83492791)) as int
  }

  const LINE := [P3(2.3, 0.0, 0.0), P3(0.7, 0.0, 0.0), P3(1.5, 0.0, 0.0)]

  lemma SmallLow()
    ensures Low(0) == 0 && Low(1) == 1 && Low(2) == 2
  {
  }

  lemma Words()
    ensures Word(0) == 0 && Word(2) == 2 && Word(-1) == 0xFFFF_FFFF_FFFF_FFFF && Word(1) == 1
  {
    SmallLow();
    hide Low;
  }

  lemma KeysApart()
    ensures XorKey(Cell(2, 0, 0)) == 147712186 && XorKey(Cell(0, 0, 0)) == 0
    ensures XorKey(Cell(0, -1, -1)) != 147712186 && XorKey(Cell(0, -1, 0)) != 147712186
    ensures XorKey(Cell(0, -1, 1)) != 147712186 && XorKey(Cell(0, 0, -1)) != 147712186
  {
    Words();
    hide Word;
  }

  lemma LineCells()
    ensures CellOf(LINE[0], 1.0) == Cell(2, 0, 0) && CellOf(LINE[1], 1.0) == Cell(0, 0, 0) && CellOf(LINE[2], 1.0) == Cell(1, 0, 0)
    ensures !Near(LINE[1], LINE[0], 1.0) && Near(LINE[2], LINE[0], 1.0) && Near(LINE[2], LINE[1], 1.0)
  {
  }

  const LINE_GRID: Grid := map[147712186 := [0], 0 := [1]]

  /** A vertex far from every representative becomes one. */
  lemma BecomesRep(v: seq<P3>, key: Hash, eps: real, i: nat)
    requires eps > 0.0 && i < |v|
    requires var w := WeldOf(v, key, eps, i); forall r :: 0 <= r < |w.reps| ==> !Near(v[i], w.reps[r], eps)
    ensures var w := WeldOf(v, key, eps, i);
            var h := key(CellOf(v[i], eps));
            WeldOf(v, key, eps, i + 1) ==
            Weld(w.grid[h := Bucket(w.grid, h) + [|w.reps|]], w.reps + [v[i]], w.remap + [|w.reps|])
  {
    hide Near, CellOf, FirstHit, Filed, Bucket;
    var w := WeldOf(v, key, eps, i);
    FiledFiles(w.grid, w.reps, key, eps);
    var found := FirstFrom(w.grid, w.reps, key, v[i], eps, 0);
    FindsNear(w.grid, w.reps, key, v[i], eps, 0, found);
    WeldNext(v, key, eps, i, found);
  }

  lemma OneRep()
    ensures WeldOf(LINE, XorKey, 1.0, 1) == Weld(map[147712186 := [0]], [LINE[0]], [0])
  {
    LineCells();
    KeysApart();
    WeldNothing(LINE, XorKey, 1.0);
    hide Near, CellOf, XorKey, WeldOf;
    BecomesRep(LINE, XorKey, 1.0, 0);
    var none: seq<P3>, nothing: seq<nat> := [], [];
    assert none + [LINE[0]] == [LINE[0]] && nothing + [0] == [0];
  }

  /** The first two vertices, too far apart, become representatives. */
  lemma TwoApart()
    ensures WeldOf(LINE, XorKey, 1.0, 2) == Weld(LINE_GRID, [LINE[0], LINE[1]], [0, 1])
  {
    LineCells();
    KeysApart();
    OneRep();
    hide Near, CellOf, XorKey, WeldOf;
    BecomesRep(LINE, XorKey, 1.0, 1);
    GridOfTwo();
  }

  lemma GridOfTwo()
    ensures (map[147712186 := [0]])[0 := Bucket(map[147712186 := [0]], 0) + [1]] == LINE_GRID
    ensures [LINE[0]] + [LINE[1]] == [LINE[0], LINE[1]] && [0] + [1] == [0, 1]
  {
    var none: seq<nat> := [];
    assert none + [1] == [1];
  }

  lemma NeighbourAt(c: Cell, dx: nat, dy: nat, dz: nat)
    requires dx < 3 && dy < 3 && dz < 3
    ensures 9 * dx + 3 * dy + dz < 27 && Neighbour(c, 9 * dx + 3 * dy + dz) == Cell(c.x + dx - 1, c.y + dy - 1, c.z + dz - 1)
  {
    Digits(dx, dy, dz);
  }

  lemma ReachesLater()
    ensures !ReachedFirst(LINE_GRID, [LINE[0], LINE[1]], XorKey, LINE[2], 1.0, 0)
  {
    LineCells();
    KeysApart();
    hide Near, CellOf, XorKey, Neighbour;
    var reps := [LINE[0], LINE[1]];
    forall j: nat | j < 27 ensures !HoldsFirst(LINE_GRID, reps, XorKey, LINE[2], 1.0, 0, j) {
      var c := CellOf(LINE[2], 1.0);
      NeighbourAt(c, 0, 0, 0);
      NeighbourAt(c, 0, 0, 1);
      NeighbourAt(c, 0, 0, 2);
      NeighbourAt(c, 0, 1, 0);
      NeighbourAt(c, 0, 1, 1);
      if j <= 4 {
        assert j == 0 || j == 1 || j == 2 || j == 3 || j == 4;
        assert 0 !in Bucket(LINE_GRID, XorKey(Neighbour(c, j)));
      } else {
        assert IsHit(Bucket(LINE_GRID, XorKey(Neighbour(c, 4))), reps, LINE[2], 1.0, 1);
      }
    }
  }

  /** Of the vertices at 2.3, 0.7 and 1.5 on a line, with eps 1, the third joins the second
      although the first, an earlier representative, is within eps of it. */
  lemma CellOrderDecides()
    ensures var w := WeldOf(LINE, XorKey, 1.0, 2);
            && IsEarliest(w.reps, LINE[2], 1.0, 0) && WeldOf(LINE, XorKey, 1.0, 3).remap == [0, 1, 1]
  {
    TwoApart();
    LineCells();
    ReachesLater();
    hide Near, CellOf, XorKey, FirstHit, Filed, ReachedFirst;
    var w := WeldOf(LINE, XorKey, 1.0, 2);
    assert IsEarliest(w.reps, LINE[2], 1.0, 0);
    JoinsEarliestExactly(LINE, XorKey, 1.0, 2, 0);
    FiledFiles(w.grid, w.reps, XorKey, 1.0);
    var found := FirstFrom(w.grid, w.reps, XorKey, LINE[2], 1.0, 0);
    FindsNear(w.grid, w.reps, XorKey, LINE[2], 1.0, 0, found);
    WeldNext(LINE, XorKey, 1.0, 2, found);
    if found.None? { NoneMeansFar(w.grid, w.reps, XorKey, LINE[2], 1.0); }
  }
}
