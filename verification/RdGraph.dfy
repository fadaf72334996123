/** ggml-rd's graph_compute, second half: recording. */
module RdGraph {

  // Dispatches are recorded with a barrier only where byte ranges conflict; proved is
  // what the recorded list means on a device that reorders freely between barriers.

  import opened GpuOrder
  import opened Options
  import opened RdPack

  // --- the hazard test ---------------------------------------------------------

  predicate Hits(v: seq<Range>, r: Range) {
    exists k :: 0 <= k < |v| && Overlap(v[k], r)
  }

  predicate AnyHits(v: seq<Range>, rs: seq<Range>) {
    exists k :: 0 <= k < |rs| && Hits(v, rs[k])
  }

  /** Two dispatches overlap where at least one of them writes. */
  predicate RangesConflict(a: Dispatch, b: Dispatch) {
    AnyHits([a.write], b.loads) || Hits([a.write], b.write) || Hits(a.loads, b.write)
  }

  /** Dispatch i conflicts with one of s..i-1. */
  predicate Hazard(ds: seq<Dispatch>, s: nat, i: nat)
    requires s <= i < |ds|
  {
    exists j :: s <= j < i && RangesConflict(ds[j], ds[i])
  }

  /** barrier[i] says whether a barrier precedes dispatch i; the segment open just
      before dispatch i starts at the last barrier. */
  function Start(barrier: seq<bool>, i: nat): (s: nat)
    requires i <= |barrier|
    ensures s <= i
  {
    if i == 0 then 0 else if barrier[i - 1] then i - 1 else Start(barrier, i - 1)
  }

  /** The elision rule: a barrier exactly where the open segment has a hazard
      (or everywhere, when `all` asks for it). */
  predicate Elided(ds: seq<Dispatch>, all: bool, barrier: seq<bool>) {
    |barrier| <= |ds| && forall i :: 0 <= i < |barrier| ==> ElidedAt(ds, all, barrier, i)
  }

  predicate ElidedAt(ds: seq<Dispatch>, all: bool, barrier: seq<bool>, i: nat)
    requires i < |barrier| <= |ds|
  {
    barrier[i] == ((all && i > 0) || Hazard(ds, Start(barrier, i), i))
  }

  lemma {:induction false} StartPrefix(barrier: seq<bool>, b: bool, i: nat)
    requires i <= |barrier|
    ensures Start(barrier + [b], i) == Start(barrier, i)
  {
    if i != 0 { StartPrefix(barrier, b, i - 1); }
  }

  lemma ElidedPush(ds: seq<Dispatch>, all: bool, barrier: seq<bool>, b: bool)
    requires Elided(ds, all, barrier) && |barrier| < |ds|
    requires b == ((all && |barrier| > 0) || Hazard(ds, Start(barrier, |barrier|), |barrier|))
    ensures Elided(ds, all, barrier + [b])
  {
    forall i | 0 <= i <= |barrier| ensures ElidedAt(ds, all, barrier + [b], i) {
      StartPrefix(barrier, b, i);
      assert i < |barrier| ==> ElidedAt(ds, all, barrier, i);
    }
  }

  // --- recording ---------------------------------------------------------------

  datatype Command =
    | BindPipeline(kernel: int) | BindTensors(set0: int) | BindSlot(slot: nat)
    | Issue(gx: nat, gy: nat, gz: nat) | Barrier

  /** A launched dispatch: everything bound when it was issued. */
  datatype Launched = Launched(kernel: int, set0: int, slot: int, gx: nat, gy: nat, gz: nat)

  /** The device side: current bindings, and the segments issued so far. */
  datatype Device = Device(kernel: int, set0: int, slot: int, segs: seq<seq<Launched>>)

  function Apply(d: Device, c: Command): (r: Device)
    requires |d.segs| > 0
    ensures |r.segs| > 0
  {
    match c
    case BindPipeline(k) => d.(kernel := k)
    case BindTensors(s) => d.(set0 := s)
    case BindSlot(i) => d.(slot := i)
    case Issue(x, y, z) => d.(segs := AddToLast(d.segs, Launched(d.kernel, d.set0, d.slot, x, y, z)))
    case Barrier => d.(segs := d.segs + [[]])
  }

  function AddToLast<T>(segs: seq<seq<T>>, x: T): (r: seq<seq<T>>)
    requires |segs| > 0
    ensures |r| == |segs|
  {
    segs[..|segs| - 1] + [segs[|segs| - 1] + [x]]
  }

  function Replay(cmds: seq<Command>): (d: Device)
    ensures |d.segs| > 0
  {
    if cmds == [] then Device(-1, 0, -1, [[]])
    else Apply(Replay(cmds[..|cmds| - 1]), cmds[|cmds| - 1])
  }

  lemma ReplayPush(cmds: seq<Command>, c: Command)
    ensures Replay(cmds + [c]) == Apply(Replay(cmds), c)
  {
    assert (cmds + [c])[..|cmds|] == cmds;
  }

  /** The cached tensor set of a dispatch: a function of the buffers it binds. */
  type SetOf = seq<int> -> int

  /** Dispatch i as it should be launched: its own pipeline, tensor set and slot. */
  function Meant(ds: seq<Dispatch>, sets: SetOf, i: nat): Launched
    requires i < |ds|
  {
    var l := ds[i].launch;
    Launched(l.kernel, sets(ds[i].bind), i, l.gx, l.gy, l.gz)
  }

  /** Dispatches a..b-1, in graph order. */
  function MeantRun(ds: seq<Dispatch>, sets: SetOf, a: nat, b: nat): (r: seq<Launched>)
    requires a <= b <= |ds|
    ensures |r| == b - a && forall k :: 0 <= k < b - a ==> r[k] == Meant(ds, sets, a + k)
  {
    if a == b then [] else MeantRun(ds, sets, a, b - 1) + [Meant(ds, sets, b - 1)]
  }

  /** The first i dispatches, cut into segments at the barriers. */
  function Segments(ds: seq<Dispatch>, sets: SetOf, barrier: seq<bool>, i: nat): (segs: seq<seq<Launched>>)
    requires i <= |barrier| <= |ds|
    ensures |segs| > 0
  {
    if i == 0 then [[]]
    else if barrier[i - 1] then Segments(ds, sets, barrier, i - 1) + [[Meant(ds, sets, i - 1)]]
    else AddToLast(Segments(ds, sets, barrier, i - 1), Meant(ds, sets, i - 1))
  }

  lemma {:induction false} SegmentsPrefix(ds: seq<Dispatch>, sets: SetOf, barrier: seq<bool>, b: bool, i: nat)
    requires i <= |barrier| < |ds|
    ensures Segments(ds, sets, barrier + [b], i) == Segments(ds, sets, barrier, i)
  {
    if i != 0 { SegmentsPrefix(ds, sets, barrier, b, i - 1); }
  }

  /** Barriers placed before dispatches 0..n-1. */
  function Count(p: seq<bool>, n: nat): nat
    requires n <= |p|
  {
    if n == 0 then 0 else Count(p, n - 1) + (if p[n - 1] then 1 else 0)
  }

  lemma {:induction false} CountPrefix(p: seq<bool>, b: bool, n: nat)
    requires n <= |p|
    ensures Count(p + [b], n) == Count(p, n)
  {
    if n != 0 { CountPrefix(p, b, n - 1); }
  }

  // The read and write ranges noted for dispatches s..i-1.

  function NotedReads(ds: seq<Dispatch>, s: nat, i: nat): seq<Range>
    requires s <= i <= |ds|
  {
    if s == i then [] else NotedReads(ds, s, i - 1) + ds[i - 1].loads
  }

  function NotedWrites(ds: seq<Dispatch>, s: nat, i: nat): seq<Range>
    requires s <= i <= |ds|
  {
    if s == i then [] else NotedWrites(ds, s, i - 1) + [ds[i - 1].write]
  }

  lemma HitsAppend(a: seq<Range>, b: seq<Range>, w: Range)
    ensures Hits(a + b, w) <==> Hits(a, w) || Hits(b, w)
  {
    if k :| 0 <= k < |a| && Overlap(a[k], w) { assert (a + b)[k] == a[k]; }
    if k :| 0 <= k < |b| && Overlap(b[k], w) { assert (a + b)[|a| + k] == b[k]; }
  }

  lemma AnyHitsAppend(a: seq<Range>, b: seq<Range>, rs: seq<Range>)
    ensures AnyHits(a + b, rs) <==> AnyHits(a, rs) || AnyHits(b, rs)
  {
    forall k | 0 <= k < |rs| { HitsAppend(a, b, rs[k]); }
  }

  /** Read after write, write after write, write after read, against the notes. */
  predicate HitsNotes(segReads: seq<Range>, segWrites: seq<Range>, dp: Dispatch) {
    AnyHits(segWrites, dp.loads) || Hits(segWrites, dp.write) || Hits(segReads, dp.write)
  }

  lemma NotesGrow(ds: seq<Dispatch>, s: nat, n: nat, dp: Dispatch)
    requires s < n <= |ds|
    ensures HitsNotes(NotedReads(ds, s, n), NotedWrites(ds, s, n), dp) <==>
            HitsNotes(NotedReads(ds, s, n - 1), NotedWrites(ds, s, n - 1), dp) || RangesConflict(ds[n - 1], dp)
  {
    hide Hits, AnyHits;
    var d := ds[n - 1];
    AnyHitsAppend(NotedWrites(ds, s, n - 1), [d.write], dp.loads);
    HitsAppend(NotedWrites(ds, s, n - 1), [d.write], dp.write);
    HitsAppend(NotedReads(ds, s, n - 1), d.loads, dp.write);
  }

  /** The overlap tests over the accumulated notes are the pairwise hazard test. */
  lemma {:induction false} NotesAreHazard(ds: seq<Dispatch>, s: nat, n: nat, dp: Dispatch)
    requires s <= n <= |ds|
    ensures HitsNotes(NotedReads(ds, s, n), NotedWrites(ds, s, n), dp) <==>
            exists j :: s <= j < n && RangesConflict(ds[j], dp)
  {
    if s < n {
      hide HitsNotes, RangesConflict;
      NotesAreHazard(ds, s, n - 1, dp);
      NotesGrow(ds, s, n, dp);
    }
  }

  method FindHazard(always: bool, segReads: seq<Range>, segWrites: seq<Range>, dp: Dispatch) returns (hazard: bool)
    ensures hazard <==> always || HitsNotes(segReads, segWrites, dp)
  {
    hazard := always;
    var r := 0;
    while r < |dp.loads| && !hazard
      invariant 0 <= r <= |dp.loads|
      invariant hazard <==> always || exists q :: 0 <= q < r && Hits(segWrites, dp.loads[q])
    {
      hazard := Overlaps(segWrites, dp.loads[r]);
      r := r + 1;
    }
    if !hazard {
      hazard := Overlaps(segWrites, dp.write);
      if !hazard {
        hazard := Overlaps(segReads, dp.write);
      }
    }
  }

  /** Binds what changed, binds the slot, issues. */
  method BindAndIssue(cmds: seq<Command>, l: Launch, set0: int, slot: nat, boundKernel: int, boundSet0: int)
    returns (out: seq<Command>, newKernel: int, newSet0: int)
    requires boundKernel == Replay(cmds).kernel && boundSet0 == Replay(cmds).set0
    ensures Replay(out) == Device(l.kernel, set0, slot,
              AddToLast(Replay(cmds).segs, Launched(l.kernel, set0, slot, l.gx, l.gy, l.gz)))
    ensures newKernel == l.kernel && newSet0 == set0
  {
    out, newKernel, newSet0 := cmds, boundKernel, boundSet0;
    if l.kernel != boundKernel {
      ReplayPush(out, BindPipeline(l.kernel));
      out := out + [BindPipeline(l.kernel)];
      newKernel := l.kernel;
    }
    if set0 != boundSet0 {
      ReplayPush(out, BindTensors(set0));
      out := out + [BindTensors(set0)];
      newSet0 := set0;
    }
    ReplayPush(out, BindSlot(slot));
    out := out + [BindSlot(slot)];
    ReplayPush(out, Issue(l.gx, l.gy, l.gz));
    out := out + [Issue(l.gx, l.gy, l.gz)];
  }

  lemma HazardFromNotes(ds: seq<Dispatch>, s: nat, i: nat)
    requires s <= i < |ds|
    ensures HitsNotes(NotedReads(ds, s, i), NotedWrites(ds, s, i), ds[i]) <==> Hazard(ds, s, i)
  {
    hide HitsNotes, RangesConflict;
    NotesAreHazard(ds, s, i, ds[i]);
  }

  /** What one more flag does to the segments and the notes. */
  lemma PushFlag(ds: seq<Dispatch>, all: bool, sets: SetOf, barrier: seq<bool>, b: bool)
    requires Elided(ds, all, barrier) && |barrier| < |ds|
    requires b == ((all && |barrier| > 0) || Hazard(ds, Start(barrier, |barrier|), |barrier|))
    ensures var i, longer := |barrier|, barrier + [b];
            && Elided(ds, all, longer)
            && Count(longer, i + 1) == Count(barrier, i) + (if b then 1 else 0)
            && Start(longer, i + 1) == (if b then i else Start(barrier, i))
            && Segments(ds, sets, longer, i + 1) ==
               (if b then Segments(ds, sets, barrier, i) + [[Meant(ds, sets, i)]]
                else AddToLast(Segments(ds, sets, barrier, i), Meant(ds, sets, i)))
  {
    hide Hazard, ElidedAt;
    ElidedPush(ds, all, barrier, b);
    StartPrefix(barrier, b, |barrier|);
    SegmentsPrefix(ds, sets, barrier, b, |barrier|);
    CountPrefix(barrier, b, |barrier|);
  }

  lemma NoteOne(ds: seq<Dispatch>, s: nat, i: nat)
    requires s <= i < |ds|
    ensures NotedReads(ds, s, i + 1) == NotedReads(ds, s, i) + ds[i].loads
    ensures NotedWrites(ds, s, i + 1) == NotedWrites(ds, s, i) + [ds[i].write]
    ensures s == i ==> NotedReads(ds, s, i) == [] && NotedWrites(ds, s, i) == []
  {
  }

  lemma AddToFresh<T>(segs: seq<seq<T>>, x: T)
    ensures AddToLast(segs + [[]], x) == segs + [[x]]
  {
    var none: seq<T> := [];
    assert (segs + [none])[..|segs|] == segs && none + [x] == [x];
  }

  /** The recording loop: a barrier where the running segment conflicts, and a
      bind only where the binding changed.  Every dispatch is launched with its
      own pipeline, tensor set and slot, in the segments the elision rule gives. */
  method Record(ds: seq<Dispatch>, all: bool, sets: SetOf)
    returns (cmds: seq<Command>, barrier: seq<bool>, barriers: nat)
    ensures |barrier| == |ds| && Elided(ds, all, barrier)
    ensures Replay(cmds).segs == Segments(ds, sets, barrier, |ds|)
    ensures barriers == Count(barrier, |ds|)
  {
    hide Hazard, HitsNotes, Elided, Replay, Segments, NotedReads, NotedWrites, Count, Start;
    cmds, barrier, barriers := [], [], 0;
    var segReads, segWrites: seq<Range> := [], [];
    var boundKernel, boundSet0 := -1, 0;
    NothingRecorded(ds, all, sets);
    for i := 0 to |ds|
      invariant |barrier| == i && Elided(ds, all, barrier)
      invariant Replay(cmds).segs == Segments(ds, sets, barrier, i)
      invariant barriers == Count(barrier, i)
      invariant boundKernel == Replay(cmds).kernel && boundSet0 == Replay(cmds).set0
      invariant segReads == NotedReads(ds, Start(barrier, i), i)
      invariant segWrites == NotedWrites(ds, Start(barrier, i), i)
    {
      var hazard := FindHazard(all && i > 0, segReads, segWrites, ds[i]);
      HazardFromNotes(ds, Start(barrier, i), i);
      PushFlag(ds, all, sets, barrier, hazard);
      NoteOne(ds, if hazard then i else Start(barrier, i), i);
      AddToFresh(Replay(cmds).segs, Meant(ds, sets, i));
      barrier := barrier + [hazard];
      if hazard {
        ReplayPush(cmds, Barrier);
        cmds := cmds + [Barrier];
        barriers := barriers + 1;
        segReads, segWrites := [], [];
      }
      segReads := segReads + ds[i].loads;
      segWrites := segWrites + [ds[i].write];
      cmds, boundKernel, boundSet0 := BindAndIssue(cmds, ds[i].launch, sets(ds[i].bind), i, boundKernel, boundSet0);
    }
  }

  lemma NothingRecorded(ds: seq<Dispatch>, all: bool, sets: SetOf)
    ensures Elided(ds, all, []) && Count([], 0) == 0 && Start([], 0) == 0
    ensures Replay([]) == Device(-1, 0, -1, [[]]) && Segments(ds, sets, [], 0) == [[]]
    ensures NotedReads(ds, 0, 0) == [] && NotedWrites(ds, 0, 0) == []
  {
  }

  // --- soundness ---------------------------------------------------------------

  predicate TouchedBy(ts: seq<Tensor>, c: Cell) {
    exists k :: 0 <= k < |ts| && Touches(ts[k], c)
  }

  ghost function Words(ts: seq<Tensor>): (w: iset<Cell>) {
    iset c: Cell | TouchedBy(ts, c)
  }

  predicate FromNode(d: Dispatch) {
    ValidNode(d.node) && Accepted(d.node) && d == DispatchOf(d.node)
  }

  predicate FromNodes(ds: seq<Dispatch>) {
    forall i :: 0 <= i < |ds| ==> FromNode(ds[i])
  }

  /** A word one dispatch reaches through a range and another through a range it
      writes makes the ranges overlap. */
  lemma SharedWordOverlaps(ts: seq<Tensor>, u: Tensor, c: Cell)
    requires TouchedBy(ts, c) && Touches(u, c)
    ensures Hits(RangesOf(ts), RangeOf(u)) && AnyHits([RangeOf(u)], RangesOf(ts))
  {
    var k :| 0 <= k < |ts| && Touches(ts[k], c);
    OverlapIsSharedWord(ts[k], u);
    assert Overlap(RangesOf(ts)[k], RangeOf(u)) && Overlap([RangeOf(u)][0], RangesOf(ts)[k]);
    assert Hits([RangeOf(u)], RangesOf(ts)[k]);
  }

  /** What the device does with a launch: the kernel's program, any function of everything
      bound when it is issued, and the buffers a tensor set binds. */
  datatype Behaviour = Behaviour(program: Launched -> Program, bound: int -> seq<int>)

  /** Every cached set binds the buffers it was asked for (`SetCache`). */
  ghost predicate SetsBind(sets: SetOf, run: Behaviour) {
    forall b :: |b| == 4 ==> run.bound(sets(b)) == b
  }

  /** t's bytes as a kernel finds them: at t's offset in whatever buffer is bound. */
  function Seen(t: Tensor, rid: int): Tensor {
    t.(rid := rid)
  }

  predicate SourceSeen(n: Node, bound: seq<int>, c: Cell)
    requires ValidNode(n)
  {
    exists s :: 0 <= s < 3 && s < |bound| && n.src[s].Some? && Touches(Seen(n.src[s].value, bound[s]), c)
  }

  predicate DestinationSeen(n: Node, bound: seq<int>, c: Cell) {
    |bound| > 3 && Touches(Seen(n.dst, bound[3]), c)
  }

  /** A launched dispatch; its footprint is the words its slot's tensors take up in the
      buffers of the set it was launched with. */
  ghost function TaskOf(d: Dispatch, run: Behaviour, l: Launched): Task
    requires FromNode(d)
  {
    var bound := run.bound(l.set0);
    Task(run.program(l), iset c: Cell | SourceSeen(d.node, bound, c), iset c: Cell | DestinationSeen(d.node, bound, c))
  }

  /** Launched with its own set, a dispatch reaches the words of its node's tensors. */
  lemma OwnFootprint(d: Dispatch, run: Behaviour, l: Launched)
    requires FromNode(d) && run.bound(l.set0) == d.bind
    ensures TaskOf(d, run, l).loads == Words(Sources(d.node))
    ensures TaskOf(d, run, l).stores == Words([d.node.dst])
  {
    var n := d.node;
    SourcesAre(n, 3);
    forall c ensures SourceSeen(n, d.bind, c) <==> TouchedBy(Sources(n), c) {
      if s :| 0 <= s < 3 && n.src[s].Some? && Touches(Seen(n.src[s].value, d.bind[s]), c) {
        var k :| 0 <= k < |Sources(n)| && Sources(n)[k] == n.src[s].value;
      }
      if k :| 0 <= k < |Sources(n)| && Touches(Sources(n)[k], c) {
        var s :| 0 <= s < 3 && n.src[s] == Some(Sources(n)[k]);
        assert Touches(Seen(n.src[s].value, d.bind[s]), c);
      }
    }
    forall c ensures DestinationSeen(n, d.bind, c) <==> TouchedBy([n.dst], c) {
      assert [n.dst][0] == n.dst;
    }
  }

  lemma NoRangeConflict(a: Dispatch, b: Dispatch, run: Behaviour, la: Launched, lb: Launched)
    requires FromNode(a) && FromNode(b) && !RangesConflict(a, b)
    requires run.bound(la.set0) == a.bind && run.bound(lb.set0) == b.bind
    ensures !Conflict(TaskOf(a, run, la), TaskOf(b, run, lb))
  {
    var ta, tb := TaskOf(a, run, la), TaskOf(b, run, lb);
    OwnFootprint(a, run, la);
    OwnFootprint(b, run, lb);
    hide TaskOf;
    forall c ensures !((c in ta.stores && (c in tb.stores || c in tb.loads)) || (c in ta.loads && c in tb.stores)) {
      if c in ta.stores {
        if c in tb.stores {
          assert TouchedBy([a.node.dst], c) && RangesOf([a.node.dst]) == [a.write];
          SharedWordOverlaps([a.node.dst], b.node.dst, c);
        }
        if c in tb.loads { SharedWordOverlaps(Sources(b.node), a.node.dst, c); }
      }
      if c in ta.loads && c in tb.stores { SharedWordOverlaps(Sources(a.node), b.node.dst, c); }
    }
  }

  predicate NoneEmpty(n: Node)
    requires ValidNode(n)
  {
    n.dst.nbytes > 0 && forall k :: 0 <= k < |Sources(n)| ==> Sources(n)[k].nbytes > 0
  }

  lemma {:induction false} OverlapIsTouched(ts: seq<Tensor>, u: Tensor)
    requires u.nbytes > 0 && forall k :: 0 <= k < |ts| ==> ts[k].nbytes > 0
    requires Hits(RangesOf(ts), RangeOf(u)) || AnyHits([RangeOf(u)], RangesOf(ts))
    ensures exists c :: TouchedBy(ts, c) && Touches(u, c)
  {
    var rs := RangesOf(ts);
    var k :| 0 <= k < |rs| && Overlap(rs[k], RangeOf(u));
    OverlapIsSharedWord(ts[k], u);
    var c :| Touches(ts[k], c) && Touches(u, c);
    assert TouchedBy(ts, c);
  }

  lemma {:induction false} ConflictIsTouched(a: Dispatch, b: Dispatch) returns (c: Cell)
    requires FromNode(a) && FromNode(b) && NoneEmpty(a.node) && NoneEmpty(b.node) && RangesConflict(a, b)
    ensures (Touches(a.node.dst, c) && (TouchedBy(Sources(b.node), c) || Touches(b.node.dst, c))) ||
            (TouchedBy(Sources(a.node), c) && Touches(b.node.dst, c))
  {
    var read, write := Sources(a.node), a.node.dst;
    if AnyHits([a.write], b.loads) {
      OverlapIsTouched(Sources(b.node), write);
      c :| TouchedBy(Sources(b.node), c) && Touches(write, c);
    } else if Hits([a.write], b.write) {
      OverlapIsSharedWord(write, b.node.dst);
      c :| Touches(write, c) && Touches(b.node.dst, c);
    } else {
      OverlapIsTouched(read, b.node.dst);
      c :| TouchedBy(read, c) && Touches(b.node.dst, c);
    }
  }

  /** The range tests find no conflict that is not there: between dispatches of tensors
      that are not empty they answer exactly whether one writes a word the other reaches. */
  lemma RangesConflictExactly(a: Dispatch, b: Dispatch, run: Behaviour, la: Launched, lb: Launched)
    requires FromNode(a) && FromNode(b) && NoneEmpty(a.node) && NoneEmpty(b.node)
    requires run.bound(la.set0) == a.bind && run.bound(lb.set0) == b.bind
    ensures RangesConflict(a, b) <==> Conflict(TaskOf(a, run, la), TaskOf(b, run, lb))
  {
    hide FromNode, RangesConflict, TaskOf, NoneEmpty, Touches;
    if RangesConflict(a, b) {
      var c := ConflictIsTouched(a, b);
      OwnFootprint(a, run, la);
      OwnFootprint(b, run, lb);
      OneIsTouched(a.node.dst, c);
      OneIsTouched(b.node.dst, c);
      var ta, tb := TaskOf(a, run, la), TaskOf(b, run, lb);
      assert (c in ta.stores && (c in tb.stores || c in tb.loads)) || (c in ta.loads && c in tb.stores);
    } else {
      NoRangeConflict(a, b, run, la, lb);
    }
  }

  lemma OneIsTouched(t: Tensor, c: Cell)
    ensures TouchedBy([t], c) <==> Touches(t, c)
  {
    assert [t][0] == t;
  }

  /** A conflicting pair is cut: the open segment starts after its first dispatch. */
  lemma {:induction false} ConflictIsCut(ds: seq<Dispatch>, all: bool, barrier: seq<bool>, i: nat, a: nat, b: nat)
    requires Elided(ds, all, barrier) && a < b < i <= |barrier| <= |ds| && RangesConflict(ds[a], ds[b])
    ensures a < Start(barrier, i)
  {
    hide RangesConflict;
    assert ElidedAt(ds, all, barrier, i - 1);
    if b < i - 1 { ConflictIsCut(ds, all, barrier, i - 1, a, b); }
  }

  lemma {:induction false} FlattenSnoc<T>(segs: seq<seq<T>>, x: seq<T>)
    ensures Flatten(segs + [x]) == Flatten(segs) + x
    decreases |segs|
  {
    if segs == [] {
      assert ([] + [x])[1..] == [];
    } else {
      FlattenSnoc(segs[1..], x);
      assert (segs + [x])[1..] == segs[1..] + [x];
    }
  }

  lemma FlattenGrow<T>(init: seq<seq<T>>, last: seq<T>, x: T)
    ensures Flatten(init + [last + [x]]) == Flatten(init + [last]) + [x]
  {
    hide Flatten;
    FlattenSnoc(init, last + [x]);
    FlattenSnoc(init, last);
    assert Flatten(init) + (last + [x]) == Flatten(init) + last + [x];
  }

  lemma SplitLast<T>(segs: seq<seq<T>>)
    requires |segs| > 0
    ensures segs == segs[..|segs| - 1] + [segs[|segs| - 1]]
  {
  }

  lemma FlattenAddToLast<T>(segs: seq<seq<T>>, x: T)
    requires |segs| > 0
    ensures Flatten(AddToLast(segs, x)) == Flatten(segs) + [x]
  {
    hide Flatten;
    SplitLast(segs);
    FlattenGrow(segs[..|segs| - 1], segs[|segs| - 1], x);
  }

  lemma {:induction false} LastSegment(ds: seq<Dispatch>, sets: SetOf, barrier: seq<bool>, i: nat)
    requires i <= |barrier| <= |ds|
    ensures var segs := Segments(ds, sets, barrier, i);
            segs[|segs| - 1] == MeantRun(ds, sets, Start(barrier, i), i)
  {
    if i != 0 { LastSegment(ds, sets, barrier, i - 1); }
  }

  lemma {:induction false} SegmentsKeepOrder(ds: seq<Dispatch>, sets: SetOf, barrier: seq<bool>, n: nat)
    requires n <= |barrier| <= |ds|
    ensures Flatten(Segments(ds, sets, barrier, n)) == MeantRun(ds, sets, 0, n)
  {
    if n == 0 {
      assert Flatten<Launched>([[]]) == [];
    } else {
      SegmentsKeepOrder(ds, sets, barrier, n - 1);
      var segs := Segments(ds, sets, barrier, n - 1);
      if barrier[n - 1] {
        FlattenSnoc(segs, [Meant(ds, sets, n - 1)]);
      } else {
        FlattenAddToLast(segs, Meant(ds, sets, n - 1));
      }
    }
  }

  /** Launches of dispatches a..a+|seg|-1 with no conflicting pair among them. */
  predicate QuietRun(ds: seq<Dispatch>, sets: SetOf, seg: seq<Launched>, a: nat) {
    && a + |seg| <= |ds| && seg == MeantRun(ds, sets, a, a + |seg|)
    && forall i, j :: a <= i < j < a + |seg| ==> !RangesConflict(ds[i], ds[j])
  }

  lemma LastIsQuiet(ds: seq<Dispatch>, all: bool, sets: SetOf, barrier: seq<bool>, n: nat)
    requires n <= |barrier| <= |ds| && Elided(ds, all, barrier)
    ensures var segs := Segments(ds, sets, barrier, n);
            QuietRun(ds, sets, segs[|segs| - 1], Start(barrier, n))
  {
    hide RangesConflict, Elided;
    LastSegment(ds, sets, barrier, n);
    forall i, j | Start(barrier, n) <= i < j < n ensures !RangesConflict(ds[i], ds[j]) {
      if RangesConflict(ds[i], ds[j]) { ConflictIsCut(ds, all, barrier, n, i, j); }
    }
  }

  ghost predicate SomeQuietRun(ds: seq<Dispatch>, sets: SetOf, seg: seq<Launched>) {
    exists a: nat :: QuietRun(ds, sets, seg, a)
  }

  lemma {:induction false} SegmentsAreQuiet(ds: seq<Dispatch>, all: bool, sets: SetOf, barrier: seq<bool>, n: nat)
    requires n <= |barrier| <= |ds| && Elided(ds, all, barrier)
    ensures forall k :: 0 <= k < |Segments(ds, sets, barrier, n)| ==>
              SomeQuietRun(ds, sets, Segments(ds, sets, barrier, n)[k])
  {
    hide QuietRun, Elided;
    var full := Segments(ds, sets, barrier, n);
    LastIsQuiet(ds, all, sets, barrier, n);
    if n != 0 {
      SegmentsAreQuiet(ds, all, sets, barrier, n - 1);
      forall k | 0 <= k < |full| - 1 ensures SomeQuietRun(ds, sets, full[k]) {
        assert full[k] == Segments(ds, sets, barrier, n - 1)[k];
      }
    }
  }

  predicate InSlots(ds: seq<Dispatch>, seg: seq<Launched>) {
    forall j :: 0 <= j < |seg| ==> 0 <= seg[j].slot < |ds|
  }

  ghost function TasksOf(ds: seq<Dispatch>, run: Behaviour, seg: seq<Launched>): (ts: seq<Task>)
    requires FromNodes(ds) && InSlots(ds, seg)
    ensures |ts| == |seg|
    ensures forall j :: 0 <= j < |seg| ==> ts[j] == TaskOf(ds[seg[j].slot], run, seg[j])
  {
    if seg == [] then []
    else
      assert InSlots(ds, seg[..|seg| - 1]);
      TasksOf(ds, run, seg[..|seg| - 1]) + [TaskOf(ds[seg[|seg| - 1].slot], run, seg[|seg| - 1])]
  }

  /** Every kernel stays inside the words of its tensors. */
  ghost predicate InFootprint(ds: seq<Dispatch>, sets: SetOf, run: Behaviour)
    requires FromNodes(ds)
  {
    forall i :: 0 <= i < |ds| ==> StaysInside(TaskOf(ds[i], run, Meant(ds, sets, i)))
  }

  lemma QuietSlots(ds: seq<Dispatch>, sets: SetOf, seg: seq<Launched>, a: nat)
    requires QuietRun(ds, sets, seg, a)
    ensures forall j :: 0 <= j < |seg| ==> seg[j] == Meant(ds, sets, a + j) && seg[j].slot == a + j
    ensures InSlots(ds, seg)
  {
    hide RangesConflict;
  }

  lemma OwnSet(ds: seq<Dispatch>, sets: SetOf, run: Behaviour, i: nat)
    requires FromNodes(ds) && SetsBind(sets, run) && i < |ds|
    ensures run.bound(Meant(ds, sets, i).set0) == ds[i].bind
  {
    assert FromNode(ds[i]);
  }

  lemma QuietPairs(ds: seq<Dispatch>, sets: SetOf, run: Behaviour, seg: seq<Launched>, a: nat)
    requires FromNodes(ds) && SetsBind(sets, run) && QuietRun(ds, sets, seg, a) && InSlots(ds, seg)
    ensures ConflictFree(TasksOf(ds, run, seg))
  {
    hide RangesConflict, FromNode, Conflict, TaskOf, InSlots;
    QuietSlots(ds, sets, seg, a);
    var ts := TasksOf(ds, run, seg);
    forall i, j | 0 <= i < j < |ts| ensures !Conflict(ts[i], ts[j]) {
      OwnSet(ds, sets, run, a + i);
      OwnSet(ds, sets, run, a + j);
      NoRangeConflict(ds[a + i], ds[a + j], run, seg[i], seg[j]);
    }
  }

  lemma InsideAt(ds: seq<Dispatch>, sets: SetOf, run: Behaviour, i: nat)
    requires FromNodes(ds) && InFootprint(ds, sets, run) && i < |ds|
    ensures StaysInside(TaskOf(ds[i], run, Meant(ds, sets, i)))
  {
    hide FromNode, StaysInside, TaskOf, Meant;
  }

  lemma QuietInside(ds: seq<Dispatch>, sets: SetOf, run: Behaviour, seg: seq<Launched>, a: nat)
    requires FromNodes(ds) && InFootprint(ds, sets, run) && QuietRun(ds, sets, seg, a) && InSlots(ds, seg)
    ensures AllInside(TasksOf(ds, run, seg))
  {
    hide RangesConflict, FromNode, FromNodes, QuietRun, StaysInside, TaskOf, Meant, InFootprint, MeantRun, SetsBind;
    QuietSlots(ds, sets, seg, a);
    var ts := TasksOf(ds, run, seg);
    forall j | 0 <= j < |ts| ensures StaysInside(ts[j]) {
      InsideAt(ds, sets, run, a + j);
    }
  }

  lemma QuietRunIsConflictFree(ds: seq<Dispatch>, sets: SetOf, run: Behaviour, seg: seq<Launched>, a: nat)
    requires FromNodes(ds) && SetsBind(sets, run) && InFootprint(ds, sets, run) && QuietRun(ds, sets, seg, a)
    ensures InSlots(ds, seg)
    ensures ConflictFree(TasksOf(ds, run, seg)) && AllInside(TasksOf(ds, run, seg))
  {
    hide *;
    QuietSlots(ds, sets, seg, a);
    QuietPairs(ds, sets, run, seg, a);
    QuietInside(ds, sets, run, seg, a);
  }

  /** What the device is given, segment by segment. */
  ghost function TaskSegments(ds: seq<Dispatch>, run: Behaviour, segs: seq<seq<Launched>>): (r: seq<seq<Task>>)
    requires FromNodes(ds) && forall k :: 0 <= k < |segs| ==> InSlots(ds, segs[k])
    ensures |r| == |segs| && forall k :: 0 <= k < |segs| ==> r[k] == TasksOf(ds, run, segs[k])
  {
    if segs == [] then [] else [TasksOf(ds, run, segs[0])] + TaskSegments(ds, run, segs[1..])
  }

  lemma TasksAppend(ds: seq<Dispatch>, run: Behaviour, a: seq<Launched>, b: seq<Launched>)
    requires FromNodes(ds) && InSlots(ds, a) && InSlots(ds, b)
    ensures InSlots(ds, a + b) && TasksOf(ds, run, a + b) == TasksOf(ds, run, a) + TasksOf(ds, run, b)
  {
    hide FromNode, TaskOf;
  }

  lemma {:induction false} FlattenTasks(ds: seq<Dispatch>, run: Behaviour, segs: seq<seq<Launched>>)
    requires FromNodes(ds) && forall k :: 0 <= k < |segs| ==> InSlots(ds, segs[k])
    ensures InSlots(ds, Flatten(segs))
    ensures Flatten(TaskSegments(ds, run, segs)) == TasksOf(ds, run, Flatten(segs))
    decreases |segs|
  {
    hide FromNode, TaskOf;
    if segs != [] {
      FlattenTasks(ds, run, segs[1..]);
      var a, b := segs[0], Flatten(segs[1..]);
      assert TaskSegments(ds, run, segs)[1..] == TaskSegments(ds, run, segs[1..]);
      TasksAppend(ds, run, a, b);
    }
  }

  /** Barrier elision is sound.  For every packed list, whatever its kernels do
      inside their tensors' words and however the device interleaves their word
      accesses between the recorded barriers, the list ends in a memory exactly
      when graph order does. */
  lemma ElisionSound(ds: seq<Dispatch>, all: bool, sets: SetOf, run: Behaviour, barrier: seq<bool>,
                     segs: seq<seq<Launched>>, m: Memory, f: Memory)
    requires FromNodes(ds) && SetsBind(sets, run) && InFootprint(ds, sets, run)
    requires |barrier| == |ds| && Elided(ds, all, barrier) && segs == Segments(ds, sets, barrier, |ds|)
    ensures forall k :: 0 <= k < |segs| ==> InSlots(ds, segs[k])
    ensures InSlots(ds, MeantRun(ds, sets, 0, |ds|))
    ensures DeviceRun(TaskSegments(ds, run, segs), m, f) <==>
            InOrder(TasksOf(ds, run, MeantRun(ds, sets, 0, |ds|)), m, f)
  {
    hide FromNode, Elided, Segments, StaysInside, ConflictFree, DeviceRun, InOrder;
    SegmentsKeepOrder(ds, sets, barrier, |ds|);
    SegmentsAreQuiet(ds, all, sets, barrier, |ds|);
    forall k | 0 <= k < |segs|
      ensures InSlots(ds, segs[k])
      ensures ConflictFree(TasksOf(ds, run, segs[k])) && AllInside(TasksOf(ds, run, segs[k]))
    {
      var a: nat :| QuietRun(ds, sets, segs[k], a);
      QuietRunIsConflictFree(ds, sets, run, segs[k], a);
    }
    DeviceIsInOrder(TaskSegments(ds, run, segs), m, f);
    FlattenTasks(ds, run, segs);
  }

  // --- minimality --------------------------------------------------------------

  ghost predicate Separates(ds: seq<Dispatch>, p: seq<bool>)
    requires |p| == |ds|
  {
    forall i, j :: 0 <= i < j < |ds| && RangesConflict(ds[i], ds[j]) ==> exists k :: i < k <= j && p[k]
  }

  lemma {:induction false} CountMonotone(p: seq<bool>, i: nat, j: nat)
    requires i <= j <= |p|
    ensures Count(p, i) <= Count(p, j)
    decreases j
  {
    if i < j { CountMonotone(p, i, j - 1); }
  }

  lemma CountGrows(p: seq<bool>, i: nat, k: nat, j: nat)
    requires i < k <= j < |p| && p[k]
    ensures Count(p, j + 1) >= Count(p, i + 1) + 1
  {
    CountMonotone(p, i + 1, k);
    CountMonotone(p, k + 1, j + 1);
  }

  /** Greedy stays ahead: any separating placement has, up to where greedy's open
      segment starts, at least as many barriers. */
  lemma {:induction false} GreedyStaysAhead(ds: seq<Dispatch>, g: seq<bool>, p: seq<bool>, n: nat)
    requires |p| == |g| == |ds| && 0 < n <= |ds| && Separates(ds, p) && Elided(ds, false, g)
    ensures Start(g, n) < n && Count(g, n) <= Count(p, Start(g, n) + 1)
  {
    hide RangesConflict;
    if n > 1 {
      GreedyStaysAhead(ds, g, p, n - 1);
      assert ElidedAt(ds, false, g, n - 1);
      var s := Start(g, n - 1);
      if g[n - 1] {
        var j :| s <= j < n - 1 && RangesConflict(ds[j], ds[n - 1]);
        var k :| j < k <= n - 1 && p[k];
        CountGrows(p, s, k, n - 1);
      }
    }
  }

  lemma {:induction false} StartIsBarrier(g: seq<bool>, n: nat)
    requires n <= |g|
    ensures Start(g, n) > 0 ==> Start(g, n) < n && g[Start(g, n)]
  {
    if n > 1 && !g[n - 1] { StartIsBarrier(g, n - 1); }
  }

  /** Barrier elision is minimal: its placement separates every conflicting pair,
      and no placement that does so has fewer barriers. */
  lemma ElisionMinimal(ds: seq<Dispatch>, g: seq<bool>, p: seq<bool>)
    requires |p| == |g| == |ds| && Elided(ds, false, g)
    ensures Separates(ds, g)
    ensures Separates(ds, p) ==> Count(g, |ds|) <= Count(p, |ds|)
  {
    hide RangesConflict;
    forall i, j | 0 <= i < j < |ds| && RangesConflict(ds[i], ds[j])
      ensures exists k :: i < k <= j && g[k]
    {
      ConflictIsCut(ds, false, g, j + 1, i, j);
      StartIsBarrier(g, j + 1);
    }
    if Separates(ds, p) && |ds| > 0 {
      GreedyStaysAhead(ds, g, p, |ds|);
      CountMonotone(p, Start(g, |ds|) + 1, |ds|);
    }
  }

  // --- the whole of graph_compute -------------------------------------------------

  datatype Outcome = Failed(node: nat) | Nothing | Submitted(ds: seq<Dispatch>, cmds: seq<Command>, barrier: seq<bool>, barriers: nat)

  lemma PackedFromNodes(nodes: seq<Node>)
    requires forall i :: 0 <= i < |nodes| ==> ValidNode(nodes[i])
    requires PackSpec(nodes, |nodes|).Packed?
    ensures var ds, order := PackSpec(nodes, |nodes|).ds, Running(nodes);
            && FromNodes(ds) && |ds| == |order|
            && forall j :: 0 <= j < |order| ==> Faithful(ds[j]) && ds[j].node == order[j]
  {
    hide DispatchOf, Accepted, Skipped;
    PackMeaning(nodes, |nodes|);
    assert nodes[..|nodes|] == nodes;
    var ds, order := PackSpec(nodes, |nodes|).ds, Running(nodes);
    forall j | 0 <= j < |ds| ensures FromNode(ds[j]) && Faithful(ds[j]) && ds[j].node == order[j] {
      DispatchKeepsNode(order[j]);
      DispatchIsFaithful(order[j]);
    }
  }

  lemma DispatchKeepsNode(n: Node)
    requires ValidNode(n) && Accepted(n)
    ensures DispatchOf(n).node == n
  {
  }

  /** graph_compute on the device: refused at the first node that runs but has no kernel
      or no launch, nothing to do when every node is skipped, or one recorded list.  The
      list launches the nodes that run, in graph order: each with its own kernel and groups,
      its own params slot, and the set of its own buffers. */
  method GraphCompute(nodes: seq<Node>, all: bool, sets: SetOf) returns (r: Outcome)
    requires forall i :: 0 <= i < |nodes| ==> ValidNode(nodes[i])
    ensures r.Failed? <==> exists i :: 0 <= i < |nodes| && !Skipped(nodes[i]) && !Accepted(nodes[i])
    ensures r.Nothing? <==> forall i :: 0 <= i < |nodes| ==> Skipped(nodes[i])
    ensures r.Submitted? ==>
              && PackSpec(nodes, |nodes|).Packed? && r.ds == PackSpec(nodes, |nodes|).ds && FromNodes(r.ds)
              && |r.barrier| == |r.ds| && Elided(r.ds, all, r.barrier) && r.barriers == Count(r.barrier, |r.ds|)
              && Replay(r.cmds).segs == Segments(r.ds, sets, r.barrier, |r.ds|)
    ensures r.Submitted? ==>
              var order, launched := Running(nodes), Flatten(Replay(r.cmds).segs);
              && |order| == |r.ds| == |launched|
              && forall j :: 0 <= j < |order| ==>
                   var o, d := order[j], r.ds[j];
                   && ValidNode(o) && Accepted(o) && d.node == o
                   && |d.bind| == 4 && d.bind[3] == o.dst.rid
                   && (forall s :: 0 <= s < 3 ==> d.bind[s] == (if o.src[s].Some? then o.src[s].value.rid else o.dst.rid))
                   && launched[j] == Launched(o.pack.value.kernel, sets(d.bind), j,
                                              o.pack.value.gx, o.pack.value.gy, o.pack.value.gz)
  {
    hide Skipped, Accepted, Elided, FromNodes, DispatchOf, Segments, Replay, Count;
    var packed := Pack(nodes);
    PackMeaning(nodes, |nodes|);
    if packed.Refused? { return Failed(packed.node); }
    NoneLeft(nodes);
    if packed.ds == [] { return Nothing; }
    var cmds, barrier, barriers := Record(packed.ds, all, sets);
    PackedFromNodes(nodes);
    SegmentsKeepOrder(packed.ds, sets, barrier, |packed.ds|);
    return Submitted(packed.ds, cmds, barrier, barriers);
  }

  lemma NoneLeft(nodes: seq<Node>)
    requires forall i :: 0 <= i < |nodes| ==> ValidNode(nodes[i])
    requires PackSpec(nodes, |nodes|).Packed?
    ensures PackSpec(nodes, |nodes|).ds == [] <==> forall i :: 0 <= i < |nodes| ==> Skipped(nodes[i])
  {
    hide Skipped, DispatchOf, Accepted;
    PackMeaning(nodes, |nodes|);
    assert nodes[..|nodes|] == nodes;
    RunningNone(nodes);
  }

  lemma {:induction false} RunningNone(nodes: seq<Node>)
    ensures Running(nodes) == [] <==> forall i :: 0 <= i < |nodes| ==> Skipped(nodes[i])
  {
    hide Skipped;
    if nodes != [] { RunningNone(nodes[..|nodes| - 1]); }
  }

  /** What graph_compute submits ends, under every interleaving the recorded barriers
      allow, in the memory that running the graph's nodes one after another gives, each
      on its own tensors: task j reads the words of node j's sources, through the buffers
      of its set, and writes those of its destination. */
  lemma GraphMeansOrder(nodes: seq<Node>, all: bool, sets: SetOf, run: Behaviour, barrier: seq<bool>, m: Memory, f: Memory)
    requires forall i :: 0 <= i < |nodes| ==> ValidNode(nodes[i])
    requires PackSpec(nodes, |nodes|).Packed?
    requires var ds := PackSpec(nodes, |nodes|).ds;
             && FromNodes(ds) && SetsBind(sets, run) && InFootprint(ds, sets, run)
             && |barrier| == |ds| && Elided(ds, all, barrier)
    ensures var ds, order := PackSpec(nodes, |nodes|).ds, Running(nodes);
            var segs := Segments(ds, sets, barrier, |ds|);
            && |ds| == |order|
            && (forall k :: 0 <= k < |segs| ==> InSlots(ds, segs[k])) && InSlots(ds, MeantRun(ds, sets, 0, |ds|))
            && var ts := TasksOf(ds, run, MeantRun(ds, sets, 0, |ds|));
               && |ts| == |order|
               && (forall j, c :: 0 <= j < |order| ==>
                     (c in ts[j].loads <==> exists s :: 0 <= s < 3 && ReadsAt(order[j], s, c)))
               && (forall j, c :: 0 <= j < |order| ==> (c in ts[j].stores <==> Touches(order[j].dst, c)))
               && (DeviceRun(TaskSegments(ds, run, segs), m, f) <==> InOrder(ts, m, f))
  {
    hide FromNode, Elided, Segments, DeviceRun, InOrder, DispatchOf, Accepted, Skipped, InFootprint, TaskOf, Faithful, Touches;
    var ds, order := PackSpec(nodes, |nodes|).ds, Running(nodes);
    PackedFromNodes(nodes);
    ElisionSound(ds, all, sets, run, barrier, Segments(ds, sets, barrier, |ds|), m, f);
    forall j | 0 <= j < |ds|
      ensures forall c :: c in TaskOf(ds[j], run, Meant(ds, sets, j)).loads <==> exists s :: 0 <= s < 3 && ReadsAt(order[j], s, c)
      ensures forall c :: c in TaskOf(ds[j], run, Meant(ds, sets, j)).stores <==> Touches(order[j].dst, c)
    {
      OwnSet(ds, sets, run, j);
      TaskReaches(ds[j], run, Meant(ds, sets, j));
    }
  }

  /** Word c holds bytes of n's source s. */
  predicate ReadsAt(n: Node, s: nat, c: Cell)
  {
    s < |n.src| && n.src[s].Some? && Touches(n.src[s].value, c)
  }

  lemma TaskReaches(d: Dispatch, run: Behaviour, l: Launched)
    requires FromNode(d) && run.bound(l.set0) == d.bind
    ensures forall c :: c in TaskOf(d, run, l).loads <==> exists s :: 0 <= s < 3 && ReadsAt(d.node, s, c)
    ensures forall c :: c in TaskOf(d, run, l).stores <==> Touches(d.node.dst, c)
  {
    forall c ensures SourceSeen(d.node, d.bind, c) <==> exists s :: 0 <= s < 3 && ReadsAt(d.node, s, c) {
      if s :| 0 <= s < 3 && d.node.src[s].Some? && Touches(Seen(d.node.src[s].value, d.bind[s]), c) {
        assert ReadsAt(d.node, s, c);
      }
      if s: nat :| s < 3 && ReadsAt(d.node, s, c) {
        assert Touches(Seen(d.node.src[s].value, d.bind[s]), c);
      }
    }
  }
}
