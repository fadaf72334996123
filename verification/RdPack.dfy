/** ggml-rd's graph_compute, first half: packing. */
module RdPack {

  // Tensors as byte ranges of device buffers, and a tensor graph packed into dispatches.

  import opened Options
  import opened GpuOrder

  // --- tensors and byte ranges -------------------------------------------------

  /** Where a tensor's bytes lie in its device buffer. */
  datatype Tensor = Tensor(rid: int, offset: nat, nbytes: nat)

  datatype Range = Range(rid: int, lo: nat, hi: nat)

  /** x with its two low bits cleared. */
  function WordDown(x: nat): nat {
    x - x % 4
  }

  function RangeOf(t: Tensor): Range {
    Range(t.rid, WordDown(t.offset), WordDown(t.offset + t.nbytes + 3))
  }

  predicate Overlap(x: Range, r: Range) {
    x.rid == r.rid && x.lo < r.hi && r.lo < x.hi
  }

  method Overlaps(v: seq<Range>, r: Range) returns (b: bool)
    ensures b <==> exists k :: 0 <= k < |v| && Overlap(v[k], r)
  {
    for k := 0 to |v|
      invariant forall j :: 0 <= j < k ==> !Overlap(v[j], r)
    {
      if v[k].rid == r.rid && v[k].lo < r.hi && r.lo < v[k].hi {
        return true;
      }
    }
    return false;
  }

  /** The words a kernel addresses to reach the bytes of t: every word holding one. */
  predicate Touches(t: Tensor, c: Cell) {
    c.rid == t.rid && 4 * c.word < t.offset + t.nbytes && t.offset < 4 * c.word + 4 && t.nbytes > 0
  }

  /** The range of a non-empty tensor covers exactly the words its bytes lie in. */
  lemma RangeIsTouchedWords(t: Tensor, c: Cell)
    requires t.nbytes > 0
    ensures Touches(t, c) <==> c.rid == t.rid && RangeOf(t).lo <= 4 * c.word < RangeOf(t).hi
  {
    assert (t.offset + t.nbytes + 3) / 4 * 4 == WordDown(t.offset + t.nbytes + 3);
    assert t.offset / 4 * 4 == WordDown(t.offset);
  }

  lemma OverlapHasWord(t: Tensor, u: Tensor) returns (c: Cell)
    requires t.nbytes > 0 && u.nbytes > 0 && Overlap(RangeOf(t), RangeOf(u))
    ensures Touches(t, c) && Touches(u, c)
  {
    var x, r := RangeOf(t), RangeOf(u);
    var lo := if x.lo < r.lo then r.lo else x.lo;
    c := Cell(t.rid, lo / 4);
    assert lo % 4 == 0 && x.hi % 4 == 0 && r.hi % 4 == 0;
    RangeIsTouchedWords(t, c);
    RangeIsTouchedWords(u, c);
    hide Touches;
  }

  /** Comparing ranges decides whether two tensors share a word. */
  lemma OverlapIsSharedWord(t: Tensor, u: Tensor)
    requires t.nbytes > 0 && u.nbytes > 0
    ensures Overlap(RangeOf(t), RangeOf(u)) <==> exists c :: Touches(t, c) && Touches(u, c)
  {
    hide Touches;
    if Overlap(RangeOf(t), RangeOf(u)) {
      var c := OverlapHasWord(t, u);
    }
    if c :| Touches(t, c) && Touches(u, c) {
      RangeIsTouchedWords(t, c);
      RangeIsTouchedWords(u, c);
    }
  }

  /** Without the widening the test misses two 16-bit tensors in one word. */
  lemma WideningMatters() returns (t: Tensor, u: Tensor, c: Cell)
    ensures !Overlap(Range(t.rid, t.offset, t.offset + t.nbytes), Range(u.rid, u.offset, u.offset + u.nbytes))
    ensures Touches(t, c) && Touches(u, c) && Overlap(RangeOf(t), RangeOf(u))
  {
    t, u, c := Tensor(1, 0, 2), Tensor(1, 2, 2), Cell(1, 0);
  }

  // --- packing -----------------------------------------------------------------

  datatype Launch = Launch(kernel: int, gx: nat, gy: nat, gz: nat)

  /** A graph node as the packer sees it: `found` when an op entry exists,
      `filled` when its standard words could be written, `pack` what the op's
      packer answered. */
  datatype Node = Node(layoutOnly: bool, compute: bool, dst: Tensor, src: seq<Option<Tensor>>,
                       found: bool, filled: bool, pack: Option<Launch>)

  predicate Skipped(n: Node) {
    n.layoutOnly || n.dst.nbytes == 0 || !n.compute
  }

  predicate Accepted(n: Node) {
    n.found && n.filled && n.pack.Some? && n.pack.value.kernel >= 0 &&
    n.pack.value.gx > 0 && n.pack.value.gy > 0 && n.pack.value.gz > 0
  }

  predicate ValidNode(n: Node) {
    |n.src| == 3
  }

  datatype Dispatch = Dispatch(launch: Launch, bind: seq<int>, loads: seq<Range>, write: Range, node: Node)

  /** The tensors of the first s sources that are present. */
  function SourcesUpTo(n: Node, s: nat): (ts: seq<Tensor>)
    requires ValidNode(n) && s <= 3
  {
    if s == 0 then []
    else SourcesUpTo(n, s - 1) + (if n.src[s - 1].Some? then [n.src[s - 1].value] else [])
  }

  /** What the first s binding slots name: a source's buffer, or the destination's. */
  function BindUpTo(n: Node, s: nat): (bind: seq<int>)
    requires ValidNode(n) && s <= 3
    ensures |bind| == s
    ensures forall k :: 0 <= k < s ==> bind[k] == (if n.src[k].Some? then n.src[k].value.rid else n.dst.rid)
  {
    if s == 0 then []
    else BindUpTo(n, s - 1) + [if n.src[s - 1].Some? then n.src[s - 1].value.rid else n.dst.rid]
  }

  lemma {:induction false} SourcesAre(n: Node, s: nat)
    requires ValidNode(n) && s <= 3
    ensures forall k :: 0 <= k < s && n.src[k].Some? ==> n.src[k].value in SourcesUpTo(n, s)
    ensures forall t :: t in SourcesUpTo(n, s) ==> exists k :: 0 <= k < s && n.src[k] == Some(t)
  {
    if s > 0 { SourcesAre(n, s - 1); }
  }

  function RangesOf(ts: seq<Tensor>): (rs: seq<Range>)
    ensures |rs| == |ts| && forall k :: 0 <= k < |ts| ==> rs[k] == RangeOf(ts[k])
  {
    if ts == [] then [] else RangesOf(ts[..|ts| - 1]) + [RangeOf(ts[|ts| - 1])]
  }

  function Sources(n: Node): seq<Tensor>
    requires ValidNode(n)
  {
    SourcesUpTo(n, 3)
  }

  /** The dispatch of an accepted node: an unused binding names the destination buffer. */
  function DispatchOf(n: Node): Dispatch
    requires ValidNode(n) && Accepted(n)
  {
    Dispatch(n.pack.value,
             BindUpTo(n, 3) + [n.dst.rid], RangesOf(Sources(n)), RangeOf(n.dst), n)
  }

  datatype Packed = Packed(ds: seq<Dispatch>, skipped: nat) | Refused(node: nat)

  /** The dispatches of the first k nodes, and how many of them were skipped. */
  function PackSpec(nodes: seq<Node>, k: nat): Packed
    requires k <= |nodes| && forall i :: 0 <= i < |nodes| ==> ValidNode(nodes[i])
  {
    if k == 0 then Packed([], 0)
    else match PackSpec(nodes, k - 1)
      case Refused(i) => Refused(i)
      case Packed(ds, skipped) =>
        var n := nodes[k - 1];
        if Skipped(n) then Packed(ds, skipped + 1)
        else if !Accepted(n) then Refused(k - 1)
        else Packed(ds + [DispatchOf(n)], skipped)
  }

  method Bindings(n: Node) returns (bind: seq<int>, loads: seq<Range>)
    requires ValidNode(n)
    ensures bind == BindUpTo(n, 3) && loads == RangesOf(Sources(n))
    ensures |bind| == 3
    ensures forall s :: 0 <= s < 3 ==> bind[s] == (if n.src[s].Some? then n.src[s].value.rid else n.dst.rid)
    ensures forall s :: 0 <= s < 3 && n.src[s].Some? ==> RangeOf(n.src[s].value) in loads
    ensures forall r :: r in loads ==> exists s :: 0 <= s < 3 && n.src[s].Some? && r == RangeOf(n.src[s].value)
  {
    SourcesAre(n, 3);
    bind, loads := [], [];
    for s := 0 to 3
      invariant bind == BindUpTo(n, s) && loads == RangesOf(SourcesUpTo(n, s))
    {
      if n.src[s].None? {
        bind := bind + [n.dst.rid];
        assert SourcesUpTo(n, s + 1) == SourcesUpTo(n, s);
      } else {
        bind := bind + [n.src[s].value.rid];
        loads := loads + [RangeOf(n.src[s].value)];
        assert SourcesUpTo(n, s + 1) == SourcesUpTo(n, s) + [n.src[s].value];
      }
    }
    forall r | r in loads ensures exists s :: 0 <= s < 3 && n.src[s].Some? && r == RangeOf(n.src[s].value) {
      var k :| 0 <= k < |loads| && loads[k] == r;
      assert Sources(n)[k] in SourcesUpTo(n, 3);
    }
  }

  /** d runs its node: its launch, its tensors' ranges, its buffers. */
  predicate Faithful(d: Dispatch) {
    && ValidNode(d.node) && !Skipped(d.node) && Accepted(d.node)
    && d.launch == d.node.pack.value && d.write == RangeOf(d.node.dst)
    && |d.bind| == 4 && d.bind[3] == d.node.dst.rid
    && (forall s :: 0 <= s < 3 ==>
          d.bind[s] == (if d.node.src[s].Some? then d.node.src[s].value.rid else d.node.dst.rid))
    && (forall s :: 0 <= s < 3 && d.node.src[s].Some? ==> RangeOf(d.node.src[s].value) in d.loads)
  }

  lemma DispatchIsFaithful(n: Node)
    requires ValidNode(n) && Accepted(n) && !Skipped(n)
    ensures Faithful(DispatchOf(n))
  {
    SourcesAre(n, 3);
  }

  method Pack(nodes: seq<Node>) returns (r: Packed)
    requires forall i :: 0 <= i < |nodes| ==> ValidNode(nodes[i])
    ensures r == PackSpec(nodes, |nodes|)
    ensures r.Packed? ==> forall d :: d in r.ds ==> Faithful(d) && d.node in nodes
  {
    hide Faithful;
    var ds, skipped := [], 0;
    for i := 0 to |nodes|
      invariant PackSpec(nodes, i) == Packed(ds, skipped)
      invariant forall d :: d in ds ==> Faithful(d) && d.node in nodes
    {
      var n := nodes[i];
      if n.layoutOnly || n.dst.nbytes == 0 || !n.compute {
        skipped := skipped + 1;
        continue;
      }
      if !n.found || !n.filled {
        RefusedStays(nodes, i + 1, |nodes|);
        return Refused(i);
      }
      var bind, loads := Bindings(n);
      if n.pack.None? || n.pack.value.kernel < 0 ||
         n.pack.value.gx == 0 || n.pack.value.gy == 0 || n.pack.value.gz == 0 {
        RefusedStays(nodes, i + 1, |nodes|);
        return Refused(i);
      }
      var dp := Dispatch(n.pack.value, bind + [n.dst.rid], loads, RangeOf(n.dst), n);
      assert dp == DispatchOf(n);
      DispatchIsFaithful(n);
      ds := ds + [dp];
    }
    return Packed(ds, skipped);
  }

  lemma {:induction false} RefusedStays(nodes: seq<Node>, i: nat, k: nat)
    requires i <= k <= |nodes| && forall i :: 0 <= i < |nodes| ==> ValidNode(nodes[i])
    requires PackSpec(nodes, i).Refused?
    ensures PackSpec(nodes, k) == PackSpec(nodes, i)
  {
    if i < k { RefusedStays(nodes, i, k - 1); }
  }

  /** Nodes that run, in graph order. */
  function Running(nodes: seq<Node>): seq<Node> {
    if nodes == [] then []
    else Running(nodes[..|nodes| - 1]) + (if Skipped(nodes[|nodes| - 1]) then [] else [nodes[|nodes| - 1]])
  }

  /** Packing keeps graph order, drops exactly the skipped nodes, and fails
      exactly when a node that runs is not accepted. */
  lemma {:induction false} PackMeaning(nodes: seq<Node>, k: nat)
    requires k <= |nodes| && forall i :: 0 <= i < |nodes| ==> ValidNode(nodes[i])
    ensures PackSpec(nodes, k).Refused? <==> exists i :: 0 <= i < k && !Skipped(nodes[i]) && !Accepted(nodes[i])
    ensures PackSpec(nodes, k).Packed? ==>
              var p := PackSpec(nodes, k);
              var run := Running(nodes[..k]);
              |p.ds| == |run| && |p.ds| + p.skipped == k &&
              forall j :: 0 <= j < |run| ==>
                ValidNode(run[j]) && Accepted(run[j]) && !Skipped(run[j]) && p.ds[j] == DispatchOf(run[j])
  {
    if k != 0 {
      PackMeaning(nodes, k - 1);
      assert nodes[..k][..k - 1] == nodes[..k - 1] && nodes[..k][k - 1] == nodes[k - 1];
    }
  }

  /** order lists the nodes at the increasing positions `at`, which are those not skipped. */
  predicate KeepsOrder(nodes: seq<Node>, order: seq<Node>, at: seq<nat>) {
    && |at| == |order|
    && (forall j :: 0 <= j < |at| ==> at[j] < |nodes| && order[j] == nodes[at[j]])
    && (forall i, j :: 0 <= i < j < |at| ==> at[i] < at[j])
    && (forall i: nat :: i < |nodes| ==> (i in at <==> !Skipped(nodes[i])))
  }

  lemma KeepsOrderPush(nodes: seq<Node>, n: Node, order: seq<Node>, at: seq<nat>)
    requires KeepsOrder(nodes, order, at)
    ensures if Skipped(n) then KeepsOrder(nodes + [n], order, at) else KeepsOrder(nodes + [n], order + [n], at + [|nodes|])
  {
    hide Skipped;
    if !Skipped(n) {
      forall i: nat | i < |nodes + [n]| ensures i in at + [|nodes|] <==> !Skipped((nodes + [n])[i]) {
        assert i < |nodes| ==> (i in at <==> !Skipped(nodes[i]));
      }
    }
  }

  lemma {:induction false} RunningKeepsOrder(nodes: seq<Node>) returns (at: seq<nat>)
    ensures KeepsOrder(nodes, Running(nodes), at)
  {
    hide Skipped, KeepsOrder;
    if nodes == [] {
      at := [];
      NothingKept();
    } else {
      var last := |nodes| - 1;
      at := RunningKeepsOrder(nodes[..last]);
      KeepsOrderPush(nodes[..last], nodes[last], Running(nodes[..last]), at);
      assert nodes == nodes[..last] + [nodes[last]];
      assert Running(nodes[..last]) + [] == Running(nodes[..last]);
      if !Skipped(nodes[last]) { at := at + [last]; }
    }
  }

  lemma NothingKept()
    ensures KeepsOrder([], [], [])
  {
  }
}
