/** curvenet topology(): boundary edges of a triangle list and the loops walked over
    them. */
module BoundaryLoops {

  /** A directed edge. */
  type Edge = (nat, nat)

  function Rev(e: Edge): Edge { (e.1, e.0) }

  /** The undirected edge, lower vertex first. */
  function Und(e: Edge): Edge { if e.0 <= e.1 then e else Rev(e) }

  /** The directed edges of the first n triangles; a trailing partial triple has none. */
  function Uses(f: seq<nat>, n: nat): seq<Edge>
    requires 3 * n <= |f|
  {
    if n == 0 then []
    else
      var t := 3 * (n - 1);
      Uses(f, n - 1) + [(f[t], f[t + 1]), (f[t + 1], f[t + 2]), (f[t + 2], f[t])]
  }

  function Unds(es: seq<Edge>): (us: seq<Edge>)
    ensures |us| == |es| && forall i :: 0 <= i < |es| ==> us[i] == Und(es[i])
  {
    if es == [] then [] else Unds(es[..|es| - 1]) + [Und(es[|es| - 1])]
  }

  /** Used by exactly one directed edge. */
  predicate IsBoundary(uses: seq<Edge>, e: Edge) {
    e in uses && multiset(Unds(uses))[Und(e)] == 1
  }

  // --- how many edges leave a vertex more than enter it ---------------------------------

  function Step(e: Edge, v: nat): int {
    (if e.0 == v then 1 else 0) - (if e.1 == v then 1 else 0)
  }

  function Surplus(es: seq<Edge>, v: nat): int {
    if es == [] then 0 else Surplus(es[..|es| - 1], v) + Step(es[|es| - 1], v)
  }

  ghost predicate Balanced(es: seq<Edge>) {
    forall v: nat :: Surplus(es, v) == 0
  }

  lemma {:induction false} SurplusAppend(a: seq<Edge>, b: seq<Edge>, v: nat)
    ensures Surplus(a + b, v) == Surplus(a, v) + Surplus(b, v)
  {
    if b == [] {
      assert a + b == a;
    } else {
      assert (a + b)[..|a + b| - 1] == a + b[..|b| - 1];
      SurplusAppend(a, b[..|b| - 1], v);
    }
  }

  function Without(es: seq<Edge>, i: nat): (r: seq<Edge>)
    requires i < |es|
    ensures multiset(es) == multiset(r) + multiset{es[i]}
  {
    assert es == es[..i] + [es[i]] + es[i + 1..];
    es[..i] + es[i + 1..]
  }

  lemma SurplusWithout(es: seq<Edge>, i: nat, v: nat)
    requires i < |es|
    ensures Surplus(es, v) == Surplus(Without(es, i), v) + Step(es[i], v)
  {
    assert es == (es[..i] + [es[i]]) + es[i + 1..];
    SurplusAppend(es[..i] + [es[i]], es[i + 1..], v);
    SurplusAppend(es[..i], [es[i]], v);
    SurplusAppend(es[..i], es[i + 1..], v);
    SurplusOne(es[i], v);
  }

  /** Order does not matter. */
  lemma {:induction false} SurplusOfMultiset(a: seq<Edge>, b: seq<Edge>, v: nat)
    requires multiset(a) == multiset(b)
    ensures Surplus(a, v) == Surplus(b, v)
    decreases |a|
  {
    if a == [] {
      assert |multiset(b)| == 0;
      assert b == [];
    } else {
      var n := |a| - 1;
      assert a[n] in multiset(b);
      var i :| 0 <= i < |b| && b[i] == a[n];
      assert a == a[..n] + [a[n]];
      MultisetCancel(multiset(a[..n]), multiset(Without(b, i)), multiset{a[n]});
      SurplusOfMultiset(a[..n], Without(b, i), v);
      SurplusWithout(b, i, v);
    }
  }

  lemma MultisetCancel(a: multiset<Edge>, b: multiset<Edge>, c: multiset<Edge>)
    requires a + c == b + c
    ensures a == b
  {
    forall e: Edge ensures a[e] == b[e] { assert (a + c)[e] == (b + c)[e]; }
  }

  function Reversed(es: seq<Edge>): (rs: seq<Edge>)
    ensures |rs| == |es|
  {
    if es == [] then [] else Reversed(es[..|es| - 1]) + [Rev(es[|es| - 1])]
  }

  lemma {:induction false} SurplusReversed(es: seq<Edge>, v: nat)
    ensures Surplus(Reversed(es), v) == -Surplus(es, v)
  {
    if es != [] {
      var n := |es| - 1;
      SurplusReversed(es[..n], v);
      assert Reversed(es)[..n] == Reversed(es[..n]);
    }
  }

  lemma {:induction false} CountReversed(es: seq<Edge>, e: Edge)
    ensures multiset(Reversed(es))[e] == multiset(es)[Rev(e)]
  {
    if es != [] {
      var n := |es| - 1;
      var init, last := es[..n], es[n];
      CountReversed(init, e);
      assert es == init + [last];
      assert Reversed(es) == Reversed(init) + [Rev(last)];
      CountPush(init, last, Rev(e));
      CountPush(Reversed(init), Rev(last), e);
      assert Rev(last) == e <==> last == Rev(e);
    }
  }

  lemma CountPush(es: seq<Edge>, last: Edge, e: Edge)
    ensures multiset(es + [last])[e] == multiset(es)[e] + if last == e then 1 else 0
  {
  }

  /** Edges used as often one way as the other leave every vertex as often as they
      enter it. */
  lemma PairedIsBalanced(es: seq<Edge>)
    requires forall e :: multiset(es)[e] == multiset(es)[Rev(e)]
    ensures Balanced(es)
  {
    forall e: Edge ensures multiset(Reversed(es))[e] == multiset(es)[e] {
      CountReversed(es, e);
    }
    assert multiset(Reversed(es)) == multiset(es);
    forall v: nat ensures Surplus(es, v) == 0 {
      SurplusOfMultiset(es, Reversed(es), v);
      SurplusReversed(es, v);
    }
  }

  /** A triangle enters each vertex as often as it leaves it. */
  lemma {:induction false} TrianglesBalanced(f: seq<nat>, n: nat, v: nat)
    requires 3 * n <= |f|
    ensures Surplus(Uses(f, n), v) == 0
  {
    if n != 0 {
      var t := 3 * (n - 1);
      var x, y, z := (f[t], f[t + 1]), (f[t + 1], f[t + 2]), (f[t + 2], f[t]);
      TrianglesBalanced(f, n - 1, v);
      SurplusAppend(Uses(f, n - 1), [x, y, z], v);
      assert [x, y, z] == [x] + [y] + [z];
      SurplusAppend([x] + [y], [z], v);
      SurplusAppend([x], [y], v);
      SurplusOne(x, v);
      SurplusOne(y, v);
      SurplusOne(z, v);
    }
  }

  lemma SurplusOne(e: Edge, v: nat)
    ensures Surplus([e], v) == Step(e, v)
  {
    var es := [e];
    assert es[..|es| - 1] == [];
  }

  // --- the boundary ---------------------------------------------------------------------

  /** es without, or only, the boundary edges of uses. */
  function Part(es: seq<Edge>, uses: seq<Edge>, boundary: bool): seq<Edge> {
    if es == [] then []
    else
      Part(es[..|es| - 1], uses, boundary) + if IsBoundary(uses, es[|es| - 1]) == boundary then [es[|es| - 1]] else []
  }

  lemma {:induction false} PartCounts(es: seq<Edge>, uses: seq<Edge>, boundary: bool, e: Edge)
    ensures multiset(Part(es, uses, boundary))[e] == if IsBoundary(uses, e) == boundary then multiset(es)[e] else 0
  {
    hide IsBoundary;
    if es != [] {
      var n := |es| - 1;
      PartCounts(es[..n], uses, boundary, e);
      assert es == es[..n] + [es[n]];
    }
  }

  lemma {:induction false} PartsMakeWhole(es: seq<Edge>, uses: seq<Edge>, v: nat)
    ensures Surplus(es, v) == Surplus(Part(es, uses, true), v) + Surplus(Part(es, uses, false), v)
  {
    hide IsBoundary;
    if es != [] {
      var n := |es| - 1;
      PartsMakeWhole(es[..n], uses, v);
      SurplusAppend(Part(es[..n], uses, IsBoundary(uses, es[n])), [es[n]], v);
      SurplusOne(es[n], v);
      assert Part(es[..n], uses, !IsBoundary(uses, es[n])) + [] == Part(es[..n], uses, !IsBoundary(uses, es[n]));
    }
  }

  lemma {:induction false} UndCount(uses: seq<Edge>, e: Edge)
    ensures multiset(Unds(uses))[Und(e)] == multiset(uses)[e] + if e.0 == e.1 then 0 else multiset(uses)[Rev(e)]
  {
    if uses != [] {
      var n := |uses| - 1;
      var init, last := uses[..n], uses[n];
      UndCount(init, e);
      assert uses == init + [last];
      assert Unds(uses) == Unds(init) + [Und(last)];
      CountPush(Unds(init), Und(last), Und(e));
      CountPush(init, last, e);
      CountPush(init, last, Rev(e));
      assert Und(last) == Und(e) <==> last == e || last == Rev(e);
    }
  }

  /** The boundary of uses, as a multimap lists it: each boundary edge once. */
  ghost predicate ListsBoundary(next: seq<Edge>, uses: seq<Edge>) {
    forall e :: multiset(next)[e] == if IsBoundary(uses, e) then 1 else 0
  }

  lemma BoundaryUsedOnce(uses: seq<Edge>, e: Edge)
    requires IsBoundary(uses, e)
    ensures multiset(uses)[e] == 1
  {
    UndCount(uses, e);
    assert e in multiset(uses);
  }

  /** The boundary misses balance at v by as much as the interior edges do. */
  lemma BoundarySurplus(f: seq<nat>, next: seq<Edge>, v: nat)
    requires ListsBoundary(next, Uses(f, |f| / 3))
    ensures Surplus(next, v) == -Surplus(Part(Uses(f, |f| / 3), Uses(f, |f| / 3), false), v)
  {
    hide IsBoundary, Uses;
    var uses := Uses(f, |f| / 3);
    TrianglesBalanced(f, |f| / 3, v);
    PartsMakeWhole(uses, uses, v);
    forall e: Edge ensures multiset(next)[e] == multiset(Part(uses, uses, true))[e] {
      PartCounts(uses, uses, true, e);
      if IsBoundary(uses, e) { BoundaryUsedOnce(uses, e); }
    }
    assert multiset(next) == multiset(Part(uses, uses, true));
    SurplusOfMultiset(next, Part(uses, uses, true), v);
  }

  /** Every shared undirected edge is used as often one way as the other. */
  ghost predicate Oriented(uses: seq<Edge>) {
    forall e :: e in uses && !IsBoundary(uses, e) ==> multiset(uses)[e] == multiset(uses)[Rev(e)]
  }

  lemma OrientedIsBalanced(f: seq<nat>, next: seq<Edge>)
    requires ListsBoundary(next, Uses(f, |f| / 3)) && Oriented(Uses(f, |f| / 3))
    ensures Balanced(next)
  {
    hide Uses;
    var uses := Uses(f, |f| / 3);
    var inner := Part(uses, uses, false);
    forall e: Edge ensures multiset(inner)[e] == multiset(inner)[Rev(e)] {
      InnerPaired(uses, e);
    }
    PairedIsBalanced(inner);
    forall v: nat ensures Surplus(next, v) == 0 {
      BoundarySurplus(f, next, v);
    }
  }

  lemma InnerPaired(uses: seq<Edge>, e: Edge)
    requires Oriented(uses)
    ensures multiset(Part(uses, uses, false))[e] == multiset(Part(uses, uses, false))[Rev(e)]
  {
    PartCounts(uses, uses, false, e);
    PartCounts(uses, uses, false, Rev(e));
    UndCount(uses, e);
    UndCount(uses, Rev(e));
    assert e in uses <==> multiset(uses)[e] > 0;
    assert Rev(e) in uses <==> multiset(uses)[Rev(e)] > 0;
  }

  /** No directed edge is used twice: the winding is consistent and no edge is shared
      by more than two triangles. */
  ghost predicate UsedOnce(uses: seq<Edge>) {
    forall e :: multiset(uses)[e] <= 1
  }

  lemma UsedOnceIsOriented(uses: seq<Edge>)
    requires UsedOnce(uses)
    ensures Oriented(uses)
  {
    forall e | e in uses && !IsBoundary(uses, e) ensures multiset(uses)[e] == multiset(uses)[Rev(e)] {
      UndCount(uses, e);
      assert multiset(uses)[e] > 0;
    }
  }

  // --- walking -----------------------------------------------------------------------------

  /** The edges along a path. */
  function Links(path: seq<nat>): seq<Edge> {
    if |path| < 2 then [] else Links(path[..|path| - 1]) + [(path[|path| - 2], path[|path| - 1])]
  }

  lemma LinksAppend(path: seq<nat>, v: nat)
    requires path != []
    ensures Links(path + [v]) == Links(path) + [(path[|path| - 1], v)]
  {
    assert (path + [v])[..|path|] == path;
  }

  /** A path leaves its first vertex and enters its last. */
  lemma {:induction false} LinksSurplus(path: seq<nat>, v: nat)
    requires path != []
    ensures Surplus(Links(path), v) == Step((path[0], path[|path| - 1]), v)
  {
    if |path| > 1 {
      var p := path[..|path| - 1];
      LinksSurplus(p, v);
      SurplusAppend(Links(p), [(path[|path| - 2], path[|path| - 1])], v);
      SurplusOne((path[|path| - 2], path[|path| - 1]), v);
    }
  }

  /** The edges of a recorded loop: back to its first vertex when it closed. */
  function LoopEdges(loop: seq<nat>, closed: bool): seq<Edge>
    requires loop != []
  {
    if closed then Links(loop + [loop[0]]) else Links(loop)
  }

  function AllEdges(loops: seq<seq<nat>>, closed: seq<bool>): seq<Edge>
    requires |loops| == |closed| && forall i :: 0 <= i < |loops| ==> loops[i] != []
  {
    if loops == [] then []
    else
      var n := |loops| - 1;
      AllEdges(loops[..n], closed[..n]) + LoopEdges(loops[n], closed[n])
  }

  lemma {:induction false} NoWayOut(es: seq<Edge>, v: nat)
    requires forall i :: 0 <= i < |es| ==> es[i].0 != v
    ensures Surplus(es, v) <= 0
  {
    if es != [] { NoWayOut(es[..|es| - 1], v); }
  }

  /** What is left and what was walked make up what there was. */
  lemma WalkedSurplus(before: seq<Edge>, left: seq<Edge>, path: seq<nat>, v: nat)
    requires path != [] && multiset(before) == multiset(left) + multiset(Links(path))
    ensures Surplus(before, v) == Surplus(left, v) + Step((path[0], path[|path| - 1]), v)
  {
    assert multiset(before) == multiset(left + Links(path));
    SurplusOfMultiset(before, left + Links(path), v);
    SurplusAppend(left, Links(path), v);
    LinksSurplus(path, v);
  }

  lemma NextLink(before: seq<Edge>, left: seq<Edge>, path: seq<nat>, i: nat)
    requires path != [] && multiset(before) == multiset(left) + multiset(Links(path))
    requires i < |left| && left[i].0 == path[|path| - 1]
    ensures multiset(before) == multiset(Without(left, i)) + multiset(Links(path + [left[i].1]))
  {
    LinksAppend(path, left[i].1);
  }

  /** One walk from the smallest edge left. */
  method WalkOne(next: seq<Edge>) returns (left: seq<Edge>, loop: seq<nat>, ghost closed: bool)
    requires next != []
    ensures loop != [] && |left| < |next|
    ensures multiset(next) == multiset(left) + multiset(LoopEdges(loop, closed))
    ensures closed ==> SameSurplus(left, next)
    ensures !closed ==> !Balanced(next)
  {
    var start, at := next[0].0, next[0].1;
    loop := [start];
    closed := true;
    assert Links([start]) == [];
    NextLink(next, next, loop, 0);
    left := Without(next, 0);
    while at != start
      invariant loop != [] && loop[0] == start && |left| < |next|
      invariant multiset(next) == multiset(left) + multiset(Links(loop + [at]))
      decreases |left|
    {
      loop := loop + [at];
      if exists i :: 0 <= i < |left| && left[i].0 == at {
        var nx :| 0 <= nx < |left| && left[nx].0 == at;
        NextLink(next, left, loop, nx);
        at := left[nx].1;
        left := Without(left, nx);
      } else {
        closed := false;
        NoWayOut(left, at);
        WalkedSurplus(next, left, loop, at);
        return;
      }
    }
    forall v: nat ensures Surplus(left, v) == Surplus(next, v) {
      WalkedSurplus(next, left, loop + [start], v);
    }
  }

  /** The loops so far use what is no longer in next. */
  ghost predicate Walked(boundary: seq<Edge>, next: seq<Edge>, loops: seq<seq<nat>>, closed: seq<bool>) {
    && |loops| == |closed| && (forall i :: 0 <= i < |loops| ==> loops[i] != [])
    && multiset(boundary) == multiset(next) + multiset(AllEdges(loops, closed))
  }

  ghost predicate SameSurplus(a: seq<Edge>, b: seq<Edge>) {
    forall v: nat :: Surplus(a, v) == Surplus(b, v)
  }

  predicate AllClosed(closed: seq<bool>) {
    forall i :: 0 <= i < |closed| ==> closed[i]
  }

  lemma WalkedMore(boundary: seq<Edge>, next: seq<Edge>, left: seq<Edge>, loops: seq<seq<nat>>, closed: seq<bool>, loop: seq<nat>, shut: bool)
    requires Walked(boundary, next, loops, closed) && loop != []
    requires multiset(next) == multiset(left) + multiset(LoopEdges(loop, shut))
    ensures Walked(boundary, left, loops + [loop], closed + [shut])
  {
    hide LoopEdges;
    assert (loops + [loop])[..|loops|] == loops && (closed + [shut])[..|closed|] == closed;
  }

  lemma ClosedMore(closed: seq<bool>, shut: bool)
    ensures AllClosed(closed + [shut]) <==> AllClosed(closed) && shut
  {
    if AllClosed(closed + [shut]) {
      assert (closed + [shut])[|closed|] == shut;
      forall i | 0 <= i < |closed| ensures closed[i] { assert (closed + [shut])[i]; }
    }
  }

  /** The loops use every boundary edge exactly once, and they all close, without ever
      taking the open-chain break, exactly when every vertex is balanced. */
  method Walk(boundary: seq<Edge>) returns (loops: seq<seq<nat>>, ghost closed: seq<bool>)
    ensures |loops| == |closed| && forall i :: 0 <= i < |loops| ==> loops[i] != []
    ensures multiset(AllEdges(loops, closed)) == multiset(boundary)
    ensures AllClosed(closed) <==> Balanced(boundary)
    ensures Balanced(boundary) <==> multiset(AllEdges(loops, AllTrue(|loops|))) == multiset(boundary)
  {
    hide AllEdges, LoopEdges, Balanced, AllClosed, SameSurplus;
    var next := boundary;
    loops, closed := [], [];
    NothingWalked(boundary);
    while next != []
      invariant Walked(boundary, next, loops, closed)
      invariant AllClosed(closed) ==> SameSurplus(next, boundary)
      invariant !AllClosed(closed) ==> !Balanced(boundary)
      decreases |next|
    {
      var left, loop;
      ghost var shut;
      left, loop, shut := WalkOne(next);
      if AllClosed(closed) {
        if shut { SameSurplusThen(left, next, boundary); } else { StillUnbalanced(next, boundary); }
      }
      WalkedMore(boundary, next, left, loops, closed, loop, shut);
      ClosedMore(closed, shut);
      loops := loops + [loop];
      closed := closed + [shut];
      next := left;
    }
    if AllClosed(closed) {
      EmptyBalanced(boundary);
      AllClosedIsTrue(closed);
    }
    if multiset(AllEdges(loops, AllTrue(|loops|))) == multiset(boundary) { LoopsBalance(loops, boundary); }
  }

  function AllTrue(n: nat): (closed: seq<bool>)
    ensures |closed| == n && AllClosed(closed)
  {
    seq(n, i => true)
  }

  lemma AllClosedIsTrue(closed: seq<bool>)
    requires AllClosed(closed)
    ensures closed == AllTrue(|closed|)
  {
    assert forall i :: 0 <= i < |closed| ==> closed[i] == AllTrue(|closed|)[i];
  }

  /** Closed loops enter every vertex as often as they leave it. */
  lemma {:induction false} ClosedSurplus(loops: seq<seq<nat>>, v: nat)
    requires forall i :: 0 <= i < |loops| ==> loops[i] != []
    ensures Surplus(AllEdges(loops, AllTrue(|loops|)), v) == 0
  {
    if loops != [] {
      var n := |loops| - 1;
      var loop := loops[n];
      ClosedSurplus(loops[..n], v);
      assert AllTrue(|loops|)[..n] == AllTrue(n);
      LinksSurplus(loop + [loop[0]], v);
      SurplusAppend(AllEdges(loops[..n], AllTrue(n)), Links(loop + [loop[0]]), v);
    }
  }

  lemma LoopsBalance(loops: seq<seq<nat>>, boundary: seq<Edge>)
    requires forall i :: 0 <= i < |loops| ==> loops[i] != []
    requires multiset(AllEdges(loops, AllTrue(|loops|))) == multiset(boundary)
    ensures Balanced(boundary)
  {
    forall v: nat ensures Surplus(boundary, v) == 0 {
      ClosedSurplus(loops, v);
      SurplusOfMultiset(AllEdges(loops, AllTrue(|loops|)), boundary, v);
    }
  }

  lemma NothingWalked(boundary: seq<Edge>)
    ensures Walked(boundary, boundary, [], []) && AllClosed([]) && SameSurplus(boundary, boundary)
  {
  }

  lemma SameSurplusThen(a: seq<Edge>, b: seq<Edge>, c: seq<Edge>)
    requires SameSurplus(a, b) && SameSurplus(b, c)
    ensures SameSurplus(a, c)
  {
  }

  lemma EmptyBalanced(boundary: seq<Edge>)
    requires SameSurplus([], boundary)
    ensures Balanced(boundary)
  {
    forall v: nat ensures Surplus(boundary, v) == 0 { assert Surplus([], v) == 0; }
  }

  lemma StillUnbalanced(next: seq<Edge>, boundary: seq<Edge>)
    requires !Balanced(next) && SameSurplus(next, boundary)
    ensures !Balanced(boundary)
  {
    var v: nat :| Surplus(next, v) != 0;
    assert Surplus(boundary, v) != 0;
  }

  // --- topology() -----------------------------------------------------------------------------

  ghost predicate Counts(m: map<Edge, nat>, es: seq<Edge>) {
    forall e :: if e in m then m[e] == multiset(es)[e] > 0 else multiset(es)[e] == 0
  }

  function Bump(m: map<Edge, nat>, e: Edge): map<Edge, nat> {
    m[e := (if e in m then m[e] else 0) + 1]
  }

  lemma BumpCounts(m: map<Edge, nat>, es: seq<Edge>, e: Edge)
    requires Counts(m, es)
    ensures Counts(Bump(m, e), es + [e])
  {
  }

  /** One directed use counted. */
  method CountEdge(directed: map<Edge, nat>, undirected: map<Edge, nat>, a: nat, b: nat, ghost uses: seq<Edge>)
    returns (directed': map<Edge, nat>, undirected': map<Edge, nat>)
    requires Counts(directed, uses) && Counts(undirected, Unds(uses))
    ensures Counts(directed', uses + [(a, b)]) && Counts(undirected', Unds(uses + [(a, b)]))
  {
    hide Counts, Bump;
    BumpCounts(directed, uses, (a, b));
    BumpCounts(undirected, Unds(uses), Und((a, b)));
    UndsAppend(uses, (a, b));
    directed' := Bump(directed, (a, b));
    undirected' := Bump(undirected, Und((a, b)));
  }

  method CountEdges(f: seq<nat>) returns (directed: map<Edge, nat>, undirected: map<Edge, nat>)
    ensures Counts(directed, Uses(f, |f| / 3)) && Counts(undirected, Unds(Uses(f, |f| / 3)))
  {
    hide Counts, Bump, Uses, Unds;
    directed, undirected := map[], map[];
    assert Uses(f, 0) == [] by { NoUses(f); }
    NoCounts();
    var t := 0;
    ghost var n := 0;
    while t + 2 < |f|
      invariant t == 3 * n <= |f|
      invariant Counts(directed, Uses(f, n)) && Counts(undirected, Unds(Uses(f, n)))
    {
      ghost var uses := Uses(f, n);
      directed, undirected := CountEdge(directed, undirected, f[t], f[t + 1], uses);
      directed, undirected := CountEdge(directed, undirected, f[t + 1], f[t + 2], uses + [(f[t], f[t + 1])]);
      directed, undirected := CountEdge(directed, undirected, f[t + 2], f[t], uses + [(f[t], f[t + 1])] + [(f[t + 1], f[t + 2])]);
      OneTriangle(f, n, t);
      t := t + 3;
      n := n + 1;
    }
  }

  lemma OneTriangle(f: seq<nat>, n: nat, t: nat)
    requires t == 3 * n && t + 3 <= |f|
    ensures Uses(f, n + 1) == Uses(f, n) + [(f[t], f[t + 1])] + [(f[t + 1], f[t + 2])] + [(f[t + 2], f[t])]
  {
  }

  lemma NoUses(f: seq<nat>)
    ensures Uses(f, 0) == []
  {
  }

  lemma NoCounts()
    ensures Counts(map[], []) && Counts(map[], Unds([]))
  {
  }

  lemma UndsAppend(es: seq<Edge>, e: Edge)
    ensures Unds(es + [e]) == Unds(es) + [Und(e)]
  {
  }

  predicate Before(a: Edge, b: Edge) {
    a.0 < b.0 || (a.0 == b.0 && a.1 <= b.1)
  }

  predicate IsFirst(keys: set<Edge>, e: Edge) {
    e in keys && forall k :: k in keys ==> Before(e, k)
  }

  lemma BeforeOrders(a: Edge, b: Edge, c: Edge)
    ensures Before(a, a) && (Before(a, b) || Before(b, a))
    ensures Before(a, b) && Before(b, c) ==> Before(a, c)
  {
  }

  lemma {:induction false} SomeFirst(keys: set<Edge>)
    requires keys != {}
    ensures exists e :: e in keys && IsFirst(keys, e)
    decreases |keys|
  {
    hide Before;
    var x: Edge :| x in keys;
    var rest := keys - {x};
    BeforeOrders(x, x, x);
    if rest == {} {
      assert keys == {x};
      assert IsFirst(keys, x);
    } else {
      SomeFirst(rest);
      var e: Edge :| e in rest && IsFirst(rest, e);
      BeforeOrders(e, x, x);
      var first := if Before(e, x) then e else x;
      forall k | k in keys ensures Before(first, k) {
        if k != x {
          assert k in rest && Before(e, k);
          BeforeOrders(x, e, k);
        }
      }
      assert first in keys && IsFirst(keys, first);
    }
  }

  /** next lists the boundary edges already taken from keys, in order. */
  ghost predicate Taken(next: seq<Edge>, uses: seq<Edge>, keys: set<Edge>) {
    && (forall e :: multiset(next)[e] == if IsBoundary(uses, e) && e !in keys then 1 else 0)
    && InOrder(next) && forall i, k :: 0 <= i < |next| && k in keys ==> Before(next[i], k) && next[i] != k
  }

  predicate InOrder(next: seq<Edge>) {
    forall i, j :: 0 <= i < j < |next| ==> Before(next[i], next[j]) && next[i] != next[j]
  }

  lemma TakeOne(next: seq<Edge>, uses: seq<Edge>, keys: set<Edge>, e: Edge)
    requires Taken(next, uses, keys) && IsFirst(keys, e)
    ensures Taken(if IsBoundary(uses, e) then next + [e] else next, uses, keys - {e})
  {
    hide IsBoundary, Before;
  }

  lemma TakenNone(uses: seq<Edge>, keys: set<Edge>)
    requires forall e :: e in uses ==> e in keys
    ensures Taken([], uses, keys)
  {
  }

  /** The boundary multimap: the distinct directed edges, in order, whose undirected
      edge is used once. */
  method Boundary(directed: map<Edge, nat>, undirected: map<Edge, nat>, ghost uses: seq<Edge>) returns (next: seq<Edge>)
    requires Counts(directed, uses) && Counts(undirected, Unds(uses))
    ensures ListsBoundary(next, uses) && InOrder(next)
  {
    var keys := directed.Keys;
    next := [];
    assert forall e :: e in uses ==> e in keys by { UsesAreKeys(directed, uses); }
    TakenNone(uses, keys);
    next := TakeAll(directed, undirected, keys, uses);
  }

  lemma UsesAreKeys(directed: map<Edge, nat>, uses: seq<Edge>)
    requires Counts(directed, uses)
    ensures forall e :: e in uses ==> e in directed
  {
    forall e | e in uses ensures e in directed { assert e in multiset(uses); }
  }

  method TakeAll(directed: map<Edge, nat>, undirected: map<Edge, nat>, all: set<Edge>, ghost uses: seq<Edge>) returns (next: seq<Edge>)
    requires Counts(directed, uses) && Counts(undirected, Unds(uses)) && all == directed.Keys && Taken([], uses, all)
    ensures ListsBoundary(next, uses) && InOrder(next)
  {
    hide IsBoundary, Before, Counts, Taken, IsFirst;
    next := [];
    var keys := all;
    while keys != {}
      invariant keys <= directed.Keys && Taken(next, uses, keys)
      decreases |keys|
    {
      SomeFirst(keys);
      var e :| e in keys && IsFirst(keys, e);
      TakeOne(next, uses, keys, e);
      UndKnown(directed, undirected, uses, e);
      keys := keys - {e};
      if undirected[Und(e)] == 1 {
        next := next + [e];
      }
    }
    TakenAll(next, uses);
  }

  lemma TakenAll(next: seq<Edge>, uses: seq<Edge>)
    requires Taken(next, uses, {})
    ensures ListsBoundary(next, uses) && InOrder(next)
  {
  }

  lemma UndKnown(directed: map<Edge, nat>, undirected: map<Edge, nat>, uses: seq<Edge>, e: Edge)
    requires Counts(directed, uses) && Counts(undirected, Unds(uses)) && e in directed
    ensures Und(e) in undirected && (undirected[Und(e)] == 1 <==> IsBoundary(uses, e))
  {
    assert e in multiset(uses);
    UndCount(uses, e);
  }
}
