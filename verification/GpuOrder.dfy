/** What a recorded list of dispatches means. */
module GpuOrder {

  // Between two barriers the device may interleave the word-level reads and writes of
  // all dispatches in any way.  This module gives that semantics, the in-order
  // semantics, and the theorem that they coincide when no two dispatches of a
  // barrier-free segment conflict.

  import opened Options

  /** One 4-byte word of a device buffer. */
  datatype Cell = Cell(rid: int, word: int)

  type Memory = map<Cell, int>

  function At(m: Memory, c: Cell): Option<int> {
    if c in m then Some(m[c]) else None
  }

  /** What a load returns; a word never stored reads as zero. */
  function Load(m: Memory, c: Cell): int {
    if c in m then m[c] else 0
  }

  datatype Action = Read(c: Cell) | Write(c: Cell, v: int) | Halt

  /** A deterministic kernel: its next action is any function of the outcomes of
      its actions so far (the word for a read, 0 for a write). */
  type Program = seq<int> -> Action

  /** A dispatch with the words it may read and the words it may write.  A kernel
      may also read what it writes (a read-modify-write of a 16-bit half). */
  datatype Task = Task(program: Program, loads: iset<Cell>, stores: iset<Cell>)

  ghost predicate StaysInside(t: Task) {
    forall h: seq<int> ::
      match t.program(h)
      case Read(c) => c in t.loads || c in t.stores
      case Write(c, _) => c in t.stores
      case Halt => true
  }

  ghost predicate Conflict(a: Task, b: Task) {
    exists c :: (c in a.stores && (c in b.stores || c in b.loads)) || (c in a.loads && c in b.stores)
  }

  ghost predicate ConflictFree(ts: seq<Task>) {
    forall i, j :: 0 <= i < j < |ts| ==> !Conflict(ts[i], ts[j])
  }

  ghost predicate AllInside(ts: seq<Task>) {
    forall i :: 0 <= i < |ts| ==> StaysInside(ts[i])
  }

  // --- one task alone --------------------------------------------------------

  datatype Solo = Solo(mem: Memory, hist: seq<int>)

  function Advance(p: Program, s: Solo): Solo {
    match p(s.hist)
    case Read(c) => Solo(s.mem, s.hist + [Load(s.mem, c)])
    case Write(c, v) => Solo(s.mem[c := v], s.hist + [0])
    case Halt => s
  }

  /** n steps of one program from memory m. */
  function Alone(p: Program, m: Memory, n: nat): Solo {
    if n == 0 then Solo(m, []) else Advance(p, Alone(p, m, n - 1))
  }

  predicate Halted(p: Program, s: Solo) {
    p(s.hist).Halt?
  }

  ghost predicate Agree(t: Task, m: Memory, m': Memory) {
    forall c :: c in t.loads || c in t.stores ==> At(m, c) == At(m', c)
  }

  /** A task changes only the words it writes. */
  lemma {:induction false} AloneFrame(t: Task, m: Memory, n: nat, c: Cell)
    requires StaysInside(t) && c !in t.stores
    ensures At(Alone(t.program, m, n).mem, c) == At(m, c)
  {
    if n != 0 {
      AloneFrame(t, m, n - 1, c);
    }
  }

  /** A task's run depends only on the words of its footprint. */
  lemma {:induction false} AloneAgree(t: Task, m: Memory, m': Memory, n: nat)
    requires StaysInside(t) && Agree(t, m, m')
    ensures Alone(t.program, m, n).hist == Alone(t.program, m', n).hist
    ensures Agree(t, Alone(t.program, m, n).mem, Alone(t.program, m', n).mem)
  {
    if n != 0 {
      AloneAgree(t, m, m', n - 1);
      var s, s' := Alone(t.program, m, n - 1), Alone(t.program, m', n - 1);
      match t.program(s.hist)
      case Read(c) => assert At(s.mem, c) == At(s'.mem, c);
      case Write(c, v) =>
      case Halt =>
    }
  }

  lemma {:induction false} AloneHistory(p: Program, m: Memory, n: nat)
    ensures |Alone(p, m, n).hist| <= n
    ensures |Alone(p, m, n).hist| < n ==> Halted(p, Alone(p, m, n))
  {
    if n != 0 {
      AloneHistory(p, m, n - 1);
    }
  }

  lemma {:induction false} AloneAfterHalt(p: Program, m: Memory, n: nat, k: nat)
    requires n <= k && Halted(p, Alone(p, m, n))
    ensures Alone(p, m, k) == Alone(p, m, n)
    decreases k
  {
    if n < k {
      AloneAfterHalt(p, m, n, k - 1);
    }
  }

  // --- in graph order --------------------------------------------------------

  /** Each task runs to its end before the next starts; f is the final memory. */
  ghost predicate InOrder(ts: seq<Task>, m: Memory, f: Memory)
    decreases |ts|
  {
    if ts == [] then m == f
    else exists n: nat ::
      Halted(ts[0].program, Alone(ts[0].program, m, n)) && InOrder(ts[1..], Alone(ts[0].program, m, n).mem, f)
  }

  lemma {:induction false} InOrderDeterministic(ts: seq<Task>, m: Memory, f: Memory, g: Memory)
    requires InOrder(ts, m, f) && InOrder(ts, m, g)
    ensures f == g
    decreases |ts|
  {
    if ts != [] {
      var p := ts[0].program;
      var n: nat :| Halted(p, Alone(p, m, n)) && InOrder(ts[1..], Alone(p, m, n).mem, f);
      var k: nat :| Halted(p, Alone(p, m, k)) && InOrder(ts[1..], Alone(p, m, k).mem, g);
      if n <= k { AloneAfterHalt(p, m, n, k); } else { AloneAfterHalt(p, m, k, n); }
      InOrderDeterministic(ts[1..], Alone(p, m, n).mem, f, g);
    }
  }

  lemma {:induction false} InOrderAppend(a: seq<Task>, b: seq<Task>, m: Memory, x: Memory, f: Memory)
    requires InOrder(a, m, x) && InOrder(b, x, f)
    ensures InOrder(a + b, m, f)
    decreases |a|
  {
    if a == [] {
      assert a + b == b;
    } else {
      var p := a[0].program;
      var n: nat :| Halted(p, Alone(p, m, n)) && InOrder(a[1..], Alone(p, m, n).mem, x);
      InOrderAppend(a[1..], b, Alone(p, m, n).mem, x, f);
      assert (a + b)[1..] == a[1..] + b && (a + b)[0] == a[0];
    }
  }

  lemma {:induction false} InOrderSplit(a: seq<Task>, b: seq<Task>, m: Memory, f: Memory) returns (x: Memory)
    requires InOrder(a + b, m, f)
    ensures InOrder(a, m, x) && InOrder(b, x, f)
    decreases |a|
  {
    if a == [] {
      assert a + b == b;
      x := m;
    } else {
      var p := a[0].program;
      assert (a + b)[1..] == a[1..] + b;
      var n: nat :| Halted(p, Alone(p, m, n)) && InOrder(a[1..] + b, Alone(p, m, n).mem, f);
      x := InOrderSplit(a[1..], b, Alone(p, m, n).mem, f);
    }
  }

  // --- interleaved -----------------------------------------------------------

  /** The tasks of one segment in flight. */
  datatype State = State(mem: Memory, hist: seq<seq<int>>)

  function Start(ts: seq<Task>, m: Memory): (s: State)
    ensures |s.hist| == |ts|
  {
    State(m, seq(|ts|, i => []))
  }

  /** Task i performs its next read or write. */
  function Step(ts: seq<Task>, s: State, i: nat): (r: State)
    requires i < |ts| == |s.hist|
    ensures |r.hist| == |ts|
  {
    var a := Advance(ts[i].program, Solo(s.mem, s.hist[i]));
    State(a.mem, s.hist[i := a.hist])
  }

  predicate Schedule(ts: seq<Task>, order: seq<nat>) {
    forall k :: 0 <= k < |order| ==> order[k] < |ts|
  }

  function Interleave(ts: seq<Task>, s: State, order: seq<nat>): (r: State)
    requires |s.hist| == |ts| && Schedule(ts, order)
    ensures |r.hist| == |ts|
    decreases |order|
  {
    if order == [] then s else Interleave(ts, Step(ts, s, order[0]), order[1..])
  }

  predicate Complete(ts: seq<Task>, s: State)
    requires |s.hist| == |ts|
  {
    forall i :: 0 <= i < |ts| ==> ts[i].program(s.hist[i]).Halt?
  }

  /** Some complete interleaving of the segment takes m to f. */
  ghost predicate SegmentRun(ts: seq<Task>, m: Memory, f: Memory) {
    exists order: seq<nat> ::
      Schedule(ts, order) && Complete(ts, Interleave(ts, Start(ts, m), order)) &&
      Interleave(ts, Start(ts, m), order).mem == f
  }

  /** Segments separated by barriers: one completes before the next starts. */
  ghost predicate DeviceRun(segs: seq<seq<Task>>, m: Memory, f: Memory)
    decreases |segs|
  {
    if segs == [] then m == f
    else exists x :: SegmentRun(segs[0], m, x) && DeviceRun(segs[1..], x, f)
  }

  function Flatten<T>(segs: seq<seq<T>>): seq<T> {
    if segs == [] then [] else segs[0] + Flatten(segs[1..])
  }

  // --- the confluence of a conflict-free segment -----------------------------

  /** Every task is where it would be had it run alone from m. */
  ghost predicate AsIfAlone(ts: seq<Task>, m: Memory, s: State) {
    && |s.hist| == |ts|
    && (forall i :: 0 <= i < |ts| ==> s.hist[i] == Alone(ts[i].program, m, |s.hist[i]|).hist)
    && (forall i, c :: 0 <= i < |ts| && c in ts[i].stores ==>
          At(s.mem, c) == At(Alone(ts[i].program, m, |s.hist[i]|).mem, c))
    && (forall c :: (forall i :: 0 <= i < |ts| ==> c !in ts[i].stores) ==> At(s.mem, c) == At(m, c))
  }

  lemma NoConflict(ts: seq<Task>, i: nat, j: nat, c: Cell)
    requires ConflictFree(ts) && i < |ts| && j < |ts| && i != j
    ensures c in ts[i].stores ==> c !in ts[j].stores && c !in ts[j].loads
  {
    if i < j { assert !Conflict(ts[i], ts[j]); } else { assert !Conflict(ts[j], ts[i]); }
  }

  /** What task i loads in flight is what it would load alone. */
  lemma LoadsAgree(ts: seq<Task>, m: Memory, s: State, i: nat, c: Cell)
    requires ConflictFree(ts) && AllInside(ts) && AsIfAlone(ts, m, s) && i < |ts|
    requires c in ts[i].loads || c in ts[i].stores
    ensures At(s.mem, c) == At(Alone(ts[i].program, m, |s.hist[i]|).mem, c)
  {
    if c !in ts[i].stores {
      forall j | 0 <= j < |ts| ensures c !in ts[j].stores {
        if j != i { NoConflict(ts, j, i, c); }
      }
      AloneFrame(ts[i], m, |s.hist[i]|, c);
    }
  }

  lemma StepStores(ts: seq<Task>, m: Memory, s: State, i: nat, j: nat, d: Cell)
    requires ConflictFree(ts) && AllInside(ts) && AsIfAlone(ts, m, s) && i < |ts| && j < |ts|
    requires d in ts[j].stores
    ensures At(Step(ts, s, i).mem, d) == At(Alone(ts[j].program, m, |Step(ts, s, i).hist[j]|).mem, d)
  {
    var p, n := ts[i].program, |s.hist[i]|;
    assert At(s.mem, d) == At(Alone(ts[j].program, m, |s.hist[j]|).mem, d);
    match p(s.hist[i])
    case Halt =>
    case Read(c) =>
      if j == i { assert Alone(p, m, n + 1).mem == Alone(p, m, n).mem; }
    case Write(c, v) =>
      assert c in ts[i].stores;
      if j == i {
        assert Alone(p, m, n + 1).mem == Alone(p, m, n).mem[c := v];
      } else {
        NoConflict(ts, i, j, c);
      }
  }

  lemma StepAsIfAlone(ts: seq<Task>, m: Memory, s: State, i: nat)
    requires ConflictFree(ts) && AllInside(ts) && AsIfAlone(ts, m, s) && i < |ts|
    ensures AsIfAlone(ts, m, Step(ts, s, i))
  {
    var p, n := ts[i].program, |s.hist[i]|;
    var r := Step(ts, s, i);
    forall j, d | 0 <= j < |ts| && d in ts[j].stores
      ensures At(r.mem, d) == At(Alone(ts[j].program, m, |r.hist[j]|).mem, d)
    {
      StepStores(ts, m, s, i, j, d);
    }
    match p(s.hist[i])
    case Halt =>
      assert r.hist == s.hist;
    case Read(c) =>
      LoadsAgree(ts, m, s, i, c);
      assert r.hist[i] == Alone(p, m, n + 1).hist;
    case Write(c, v) =>
      assert c in ts[i].stores;
      assert r.hist[i] == Alone(p, m, n + 1).hist;
  }

  lemma {:induction false} InterleaveAsIfAlone(ts: seq<Task>, m: Memory, s: State, order: seq<nat>)
    requires ConflictFree(ts) && AllInside(ts) && AsIfAlone(ts, m, s) && Schedule(ts, order)
    ensures AsIfAlone(ts, m, Interleave(ts, s, order))
    decreases |order|
  {
    if order != [] {
      StepAsIfAlone(ts, m, s, order[0]);
      InterleaveAsIfAlone(ts, m, Step(ts, s, order[0]), order[1..]);
    }
  }

  /** Memory after tasks 0..k-1 ran in order, on the way to the interleaved result. */
  ghost predicate Prefix(ts: seq<Task>, m: Memory, e: State, k: nat, x: Memory)
    requires k <= |ts|
  {
    && (forall j, c :: 0 <= j < k && c in ts[j].stores ==> At(x, c) == At(e.mem, c))
    && (forall c :: (forall j :: 0 <= j < k ==> c !in ts[j].stores) ==> At(x, c) == At(m, c))
  }

  lemma PrefixStep(ts: seq<Task>, m: Memory, e: State, k: nat, x: Memory)
    requires ConflictFree(ts) && AllInside(ts) && AsIfAlone(ts, m, e) && Complete(ts, e)
    requires k < |ts| && Prefix(ts, m, e, k, x)
    ensures Halted(ts[k].program, Alone(ts[k].program, x, |e.hist[k]|))
    ensures Prefix(ts, m, e, k + 1, Alone(ts[k].program, x, |e.hist[k]|).mem)
  {
    var t, n := ts[k], |e.hist[k]|;
    var y := Alone(t.program, x, n).mem;
    forall c | c in t.loads || c in t.stores
      ensures At(m, c) == At(x, c)
    {
      forall j | 0 <= j < k ensures c !in ts[j].stores { NoConflict(ts, j, k, c); }
    }
    AloneAgree(t, m, x, n);
    forall j, c | 0 <= j < k + 1 && c in ts[j].stores
      ensures At(y, c) == At(e.mem, c)
    {
      if j < k {
        NoConflict(ts, j, k, c);
        AloneFrame(t, x, n, c);
      }
    }
    forall c | forall j :: 0 <= j < k + 1 ==> c !in ts[j].stores
      ensures At(y, c) == At(m, c)
    {
      assert c !in t.stores;
      AloneFrame(t, x, n, c);
    }
  }

  lemma {:induction false} PrefixToEnd(ts: seq<Task>, m: Memory, e: State, k: nat, x: Memory)
    requires ConflictFree(ts) && AllInside(ts) && AsIfAlone(ts, m, e) && Complete(ts, e)
    requires k <= |ts| && Prefix(ts, m, e, k, x)
    ensures InOrder(ts[k..], x, e.mem)
    decreases |ts| - k
  {
    if k == |ts| {
      forall c ensures At(x, c) == At(e.mem, c) {
        if j :| 0 <= j < k && c in ts[j].stores { }
      }
      SameEverywhere(x, e.mem);
    } else {
      PrefixStep(ts, m, e, k, x);
      PrefixToEnd(ts, m, e, k + 1, Alone(ts[k].program, x, |e.hist[k]|).mem);
      assert ts[k..][1..] == ts[k + 1..];
      assert ts[k..][0] == ts[k];
    }
  }

  lemma SameEverywhere(m: Memory, m': Memory)
    requires forall c :: At(m, c) == At(m', c)
    ensures m == m'
  {
    forall c ensures c in m <==> c in m' { assert At(m, c) == At(m', c); }
    forall c | c in m ensures m[c] == m'[c] { assert At(m, c) == At(m', c); }
  }

  /** Whatever the interleaving, a conflict-free segment computes its in-order result. */
  lemma SegmentIsInOrder(ts: seq<Task>, m: Memory, f: Memory)
    requires ConflictFree(ts) && AllInside(ts) && SegmentRun(ts, m, f)
    ensures InOrder(ts, m, f)
  {
    var order: seq<nat> :| Schedule(ts, order) && Complete(ts, Interleave(ts, Start(ts, m), order)) &&
      Interleave(ts, Start(ts, m), order).mem == f;
    InterleaveAsIfAlone(ts, m, Start(ts, m), order);
    PrefixToEnd(ts, m, Interleave(ts, Start(ts, m), order), 0, m);
    assert ts[0..] == ts;
  }

  // --- in-order execution is one of the interleavings ------------------------

  lemma {:induction false} InterleaveAppend(ts: seq<Task>, s: State, a: seq<nat>, b: seq<nat>)
    requires |s.hist| == |ts| && Schedule(ts, a) && Schedule(ts, b)
    ensures Schedule(ts, a + b)
    ensures Interleave(ts, s, a + b) == Interleave(ts, Interleave(ts, s, a), b)
    decreases |a|
  {
    if a == [] {
      assert a + b == b;
    } else {
      InterleaveAppend(ts, Step(ts, s, a[0]), a[1..], b);
      assert (a + b)[1..] == a[1..] + b;
    }
  }

  /** n steps of task i alone, as a schedule. */
  lemma {:induction false} AloneSchedule(ts: seq<Task>, s: State, i: nat, n: nat) returns (order: seq<nat>)
    requires |s.hist| == |ts| && i < |ts| && s.hist[i] == []
    ensures Schedule(ts, order)
    ensures Interleave(ts, s, order) ==
            State(Alone(ts[i].program, s.mem, n).mem, s.hist[i := Alone(ts[i].program, s.mem, n).hist])
  {
    if n == 0 {
      order := [];
      assert s.hist[i := []] == s.hist;
    } else {
      var o := AloneSchedule(ts, s, i, n - 1);
      InterleaveAppend(ts, s, o, [i]);
      order := o + [i];
      var r := Interleave(ts, s, o);
      assert Interleave(ts, r, [i]) == Step(ts, r, i) by {
        assert [i][1..] == [];
      }
    }
  }

  lemma {:induction false} InOrderSchedule(ts: seq<Task>, k: nat, s: State, f: Memory) returns (order: seq<nat>)
    requires k <= |ts| == |s.hist| && InOrder(ts[k..], s.mem, f)
    requires forall i :: 0 <= i < k ==> ts[i].program(s.hist[i]).Halt?
    requires forall i :: k <= i < |ts| ==> s.hist[i] == []
    ensures Schedule(ts, order)
    ensures Complete(ts, Interleave(ts, s, order)) && Interleave(ts, s, order).mem == f
    decreases |ts| - k
  {
    if k == |ts| {
      order := [];
    } else {
      var p := ts[k].program;
      assert ts[k..][0] == ts[k] && ts[k..][1..] == ts[k + 1..];
      var n: nat :| Halted(p, Alone(p, s.mem, n)) && InOrder(ts[k + 1..], Alone(p, s.mem, n).mem, f);
      var a := AloneSchedule(ts, s, k, n);
      var s' := Interleave(ts, s, a);
      var b := InOrderSchedule(ts, k + 1, s', f);
      InterleaveAppend(ts, s, a, b);
      order := a + b;
    }
  }

  lemma InOrderIsSegment(ts: seq<Task>, m: Memory, f: Memory)
    requires InOrder(ts, m, f)
    ensures SegmentRun(ts, m, f)
  {
    assert ts[0..] == ts;
    var order := InOrderSchedule(ts, 0, Start(ts, m), f);
  }

  // --- the theorem -----------------------------------------------------------

  /** The device can end with f from m exactly when running every dispatch to its
      end in recording order does. */
  lemma {:induction false} DeviceIsInOrder(segs: seq<seq<Task>>, m: Memory, f: Memory)
    requires forall k :: 0 <= k < |segs| ==> ConflictFree(segs[k]) && AllInside(segs[k])
    ensures DeviceRun(segs, m, f) <==> InOrder(Flatten(segs), m, f)
    decreases |segs|
  {
    if segs != [] {
      if DeviceRun(segs, m, f) {
        var x :| SegmentRun(segs[0], m, x) && DeviceRun(segs[1..], x, f);
        SegmentIsInOrder(segs[0], m, x);
        DeviceIsInOrder(segs[1..], x, f);
        InOrderAppend(segs[0], Flatten(segs[1..]), m, x, f);
      }
      if InOrder(Flatten(segs), m, f) {
        var x := InOrderSplit(segs[0], Flatten(segs[1..]), m, f);
        InOrderIsSegment(segs[0], m, x);
        DeviceIsInOrder(segs[1..], x, f);
      }
    }
  }

  // --- tasks that do not conflict change places ---------------------------------

  /** A task does not see another that ran before it and shares no word it writes. */
  lemma RunsAsBefore(a: Task, b: Task, m: Memory, n: nat, k: nat)
    requires StaysInside(a) && StaysInside(b) && !Conflict(a, b)
    ensures var x := Alone(a.program, m, n).mem;
            && Alone(b.program, x, k).hist == Alone(b.program, m, k).hist
            && Agree(b, Alone(b.program, x, k).mem, Alone(b.program, m, k).mem)
  {
    var x := Alone(a.program, m, n).mem;
    forall c | c in b.loads || c in b.stores ensures At(x, c) == At(m, c) { AloneFrame(a, m, n, c); }
    AloneAgree(b, x, m, k);
  }

  lemma PairCommutes(a: Task, b: Task, m: Memory, n: nat, k: nat)
    requires StaysInside(a) && StaysInside(b) && !Conflict(a, b)
    requires Halted(a.program, Alone(a.program, m, n))
    requires Halted(b.program, Alone(b.program, Alone(a.program, m, n).mem, k))
    ensures Halted(b.program, Alone(b.program, m, k))
    ensures Halted(a.program, Alone(a.program, Alone(b.program, m, k).mem, n))
    ensures Alone(a.program, Alone(b.program, m, k).mem, n).mem == Alone(b.program, Alone(a.program, m, n).mem, k).mem
  {
    RunsAsBefore(a, b, m, n, k);
    RunsAsBefore(b, a, m, k, n);
    var ma, mb := Alone(a.program, m, n).mem, Alone(b.program, m, k).mem;
    var ab, ba := Alone(b.program, ma, k).mem, Alone(a.program, mb, n).mem;
    forall c ensures At(ab, c) == At(ba, c) {
      if c !in a.stores { AloneFrame(a, m, n, c); AloneFrame(a, mb, n, c); }
      if c !in b.stores { AloneFrame(b, m, k, c); AloneFrame(b, ma, k, c); }
      assert !(c in a.stores && c in b.stores);
    }
    SameEverywhere(ab, ba);
  }

  lemma RunFirst(t: Task, rest: seq<Task>, ts: seq<Task>, m: Memory, n: nat, f: Memory)
    requires Halted(t.program, Alone(t.program, m, n)) && InOrder(rest, Alone(t.program, m, n).mem, f)
    requires ts == [t] + rest
    ensures InOrder(ts, m, f)
  {
    assert ts[0] == t && ts[1..] == rest;
    assert Halted(ts[0].program, Alone(ts[0].program, m, n)) && InOrder(ts[1..], Alone(ts[0].program, m, n).mem, f);
  }

  /** A task may run after others it conflicts with none of, instead of before them. */
  lemma {:induction false} MoveLater(a: Task, bs: seq<Task>, m: Memory, f: Memory)
    requires StaysInside(a) && AllInside(bs) && forall i :: 0 <= i < |bs| ==> !Conflict(a, bs[i])
    requires InOrder([a] + bs, m, f)
    ensures InOrder(bs + [a], m, f)
    decreases |bs|
  {
    if bs == [] {
      assert [a] + bs == bs + [a];
    } else {
      var b, rest := bs[0], bs[1..];
      var n: nat, k: nat, x := FirstTwo(a, b, [a] + bs, m, f);
      assert ([a] + bs)[2..] == rest;
      PairCommutes(a, b, m, n, k);
      var y := Alone(b.program, m, k).mem;
      assert ([a] + rest)[1..] == rest && InOrder([a] + rest, y, f);
      MoveLater(a, rest, y, f);
      RunFirst(b, rest + [a], bs + [a], m, k, f);
    }
  }

  lemma {:induction false} MoveEarlier(a: Task, bs: seq<Task>, m: Memory, f: Memory)
    requires StaysInside(a) && AllInside(bs) && forall i :: 0 <= i < |bs| ==> !Conflict(a, bs[i])
    requires InOrder(bs + [a], m, f)
    ensures InOrder([a] + bs, m, f)
    decreases |bs|
  {
    if bs == [] {
      assert [a] + bs == bs + [a];
    } else {
      var b, rest := bs[0], bs[1..];
      assert (bs + [a])[1..] == rest + [a];
      var k: nat :| Halted(b.program, Alone(b.program, m, k)) && InOrder(rest + [a], Alone(b.program, m, k).mem, f);
      var y := Alone(b.program, m, k).mem;
      MoveEarlier(a, rest, y, f);
      var both := [b] + ([a] + rest);
      RunFirst(b, [a] + rest, both, m, k, f);
      var k': nat, n: nat, x := FirstTwo(b, a, both, m, f);
      assert both[2..] == rest;
      ConflictBothWays(a, b);
      PairCommutes(b, a, m, k', n);
      RunFirst(b, rest, bs, Alone(a.program, m, n).mem, k', f);
      RunFirst(a, bs, [a] + bs, m, n, f);
    }
  }

  lemma MoveWithin(pre: seq<Task>, a: Task, bs: seq<Task>, post: seq<Task>, m: Memory, f: Memory)
    requires StaysInside(a) && AllInside(bs) && forall i :: 0 <= i < |bs| ==> !Conflict(a, bs[i])
    ensures InOrder(pre + ([a] + bs) + post, m, f) <==> InOrder(pre + (bs + [a]) + post, m, f)
  {
    hide InOrder, StaysInside, Conflict;
    if InOrder(pre + ([a] + bs) + post, m, f) {
      var y := InOrderSplit(pre + ([a] + bs), post, m, f);
      var x := InOrderSplit(pre, [a] + bs, m, y);
      MoveLater(a, bs, x, y);
      InOrderAppend(pre, bs + [a], m, x, y);
      InOrderAppend(pre + (bs + [a]), post, m, y, f);
    }
    if InOrder(pre + (bs + [a]) + post, m, f) {
      var y := InOrderSplit(pre + (bs + [a]), post, m, f);
      var x := InOrderSplit(pre, bs + [a], m, y);
      MoveEarlier(a, bs, x, y);
      InOrderAppend(pre, [a] + bs, m, x, y);
      InOrderAppend(pre + ([a] + bs), post, m, y, f);
    }
  }

  lemma ConflictBothWays(a: Task, b: Task)
    ensures Conflict(a, b) <==> Conflict(b, a)
  {
  }

  lemma FirstTwo(a: Task, b: Task, ts: seq<Task>, m: Memory, f: Memory) returns (n: nat, k: nat, x: Memory)
    requires |ts| >= 2 && ts[0] == a && ts[1] == b && InOrder(ts, m, f)
    ensures Halted(a.program, Alone(a.program, m, n))
    ensures Halted(b.program, Alone(b.program, Alone(a.program, m, n).mem, k))
    ensures x == Alone(b.program, Alone(a.program, m, n).mem, k).mem && InOrder(ts[2..], x, f)
  {
    n :| Halted(a.program, Alone(a.program, m, n)) && InOrder(ts[1..], Alone(a.program, m, n).mem, f);
    var y := Alone(a.program, m, n).mem;
    assert ts[1..][0] == b && ts[1..][1..] == ts[2..];
    k :| Halted(b.program, Alone(b.program, y, k)) && InOrder(ts[2..], Alone(b.program, y, k).mem, f);
    x := Alone(b.program, y, k).mem;
  }

  const FLAG := Cell(0, 0)
  const SEEN := Cell(0, 1)

  function SetFlag(h: seq<int>): Action {
    if h == [] then Write(FLAG, 7) else Halt
  }

  function CopyFlag(h: seq<int>): Action {
    if |h| == 0 then Read(FLAG) else if |h| == 1 then Write(SEEN, h[0]) else Halt
  }

  /** One conflicting pair left in a segment loses the theorem: the copy may run
      before the store it should see. */
  lemma ConflictMatters() returns (ts: seq<Task>, f: Memory)
    ensures |ts| == 2 && AllInside(ts) && Conflict(ts[0], ts[1])
    ensures SegmentRun(ts, map[], f) && !InOrder(ts, map[], f)
  {
    ts := [Task(SetFlag, iset{}, iset{FLAG}), Task(CopyFlag, iset{FLAG}, iset{SEEN})];
    assert FLAG in ts[0].stores && FLAG in ts[1].loads;
    var s0 := Start(ts, map[]);
    var s1, s2, s3 := Step(ts, s0, 1), Step(ts, Step(ts, s0, 1), 1), Step(ts, Step(ts, Step(ts, s0, 1), 1), 0);
    f := s3.mem;
    var order: seq<nat> := [1, 1, 0];
    assert order[1..] == [1, 0] && order[1..][1..] == [0] && order[1..][1..][1..] == [];
    assert Interleave(ts, s0, order) == s3;
    assert SegmentRun(ts, map[], f);
    assert Load(f, SEEN) == 0;
    if InOrder(ts, map[], f) {
      InOrderSeesFlag(ts, f);
    }
  }

  lemma SetFlagAlone(n: nat)
    requires Halted(SetFlag, Alone(SetFlag, map[], n))
    ensures Alone(SetFlag, map[], n).mem == map[FLAG := 7]
  {
    var m: Memory := map[];
    assert Alone(SetFlag, m, 0) == Solo(m, []);
    assert Alone(SetFlag, m, 1) == Solo(map[FLAG := 7], [0]);
    assert n != 0;
    AloneAfterHalt(SetFlag, m, 1, n);
  }

  lemma CopyFlagAlone(m: Memory, n: nat)
    requires Halted(CopyFlag, Alone(CopyFlag, m, n))
    ensures Alone(CopyFlag, m, n).mem == m[SEEN := Load(m, FLAG)]
  {
    assert Alone(CopyFlag, m, 0) == Solo(m, []);
    assert Alone(CopyFlag, m, 1) == Solo(m, [Load(m, FLAG)]);
    assert Alone(CopyFlag, m, 2) == Solo(m[SEEN := Load(m, FLAG)], [Load(m, FLAG), 0]);
    assert n != 0 && n != 1;
    AloneAfterHalt(CopyFlag, m, 2, n);
  }

  lemma InOrderSeesFlag(ts: seq<Task>, f: Memory)
    requires |ts| == 2 && ts[0].program == SetFlag && ts[1].program == CopyFlag && InOrder(ts, map[], f)
    ensures Load(f, SEEN) == 7
  {
    var n: nat :| Halted(SetFlag, Alone(SetFlag, map[], n)) && InOrder(ts[1..], Alone(SetFlag, map[], n).mem, f);
    SetFlagAlone(n);
    var m := Alone(SetFlag, map[], n).mem;
    assert ts[1..][0] == ts[1] && ts[1..][1..] == [];
    var k: nat :| Halted(CopyFlag, Alone(CopyFlag, m, k)) && InOrder([], Alone(CopyFlag, m, k).mem, f);
    CopyFlagAlone(m, k);
  }
}
