/** vec_rd: phases recorded through cached dispatch sites.

    A site's params block is rewritten in place before anything of the phase is recorded,
    so a dispatch sees the block as the last op at its site left it.  The theorems say when
    that is what the op wanted, and that then a submitted phase is VecCpu's run. */
module VecRdBackend {
  import opened VecPhases

  /** A dispatch site: its params block, its uniform set, and the block as last written. */
  datatype Site = Site(params: nat, uset: nat, words: seq<nat>)

  /** What one op of a phase became. */
  datatype Rec = Rec(uset: nat, groups: nat)

  /** One site is live: its block holds its words and its set names the site's buffers. */
  ghost predicate SiteLive(dev: Device, bufs: seq<nat>, key: SiteKey, s: Site)
    requires |bufs| == NUM_BUFS
  {
    && s.params in dev.blocks && dev.blocks[s.params] == s.words
    && s.uset in dev.sets
    && (forall i :: 0 <= i < |key.binds| ==> key.binds[i] < NUM_BUFS)
    && dev.sets[s.uset] == USet(key.kernel, Rids(bufs, key.binds), s.params)
    && (!key.dyn ==> s.words == Packed(key.words))
  }

  /** Every site is live, and no two share a block. */
  ghost predicate SitesLive(dev: Device, bufs: seq<nat>, sites: map<SiteKey, Site>)
    requires |bufs| == NUM_BUFS
  {
    && Fresh(dev)
    && (forall key :: key in sites ==> SiteLive(dev, bufs, key, sites[key]))
    && (forall a, b :: a in sites && b in sites && a != b ==> sites[a].params != sites[b].params)
  }

  /** The device's answers to what one op may ask for: a params block, a set over it, and
      a block rewritten. */
  datatype Answer = Answer(block: bool, uset: bool, write: bool)

  predicate Works(a: Answer) {
    a.block && a.uset && a.write
  }

  /** The buffers a site binds have been made; 0 names none. */
  predicate Bound(bufs: seq<nat>, binds: seq<nat>)
    requires |bufs| == NUM_BUFS && forall i :: 0 <= i < |binds| ==> binds[i] < NUM_BUFS
  {
    forall i :: 0 <= i < |binds| ==> bufs[binds[i]] != 0
  }

  predicate AllMade(bufs: seq<nat>) {
    forall i :: 0 <= i < |bufs| ==> bufs[i] != 0
  }

  /** A new site: its block and its set are new to the device. */
  function WithSite(dev: Device, bufs: seq<nat>, key: SiteKey, words: seq<nat>): Device
    requires |bufs| == NUM_BUFS && forall i :: 0 <= i < |key.binds| ==> key.binds[i] < NUM_BUFS
  {
    Device(dev.blocks[dev.next := words],
           dev.sets[dev.next + 1 := USet(key.kernel, Rids(bufs, key.binds), dev.next)],
           dev.next + 2)
  }

  lemma AddSite(dev: Device, bufs: seq<nat>, sites: map<SiteKey, Site>, key: SiteKey, words: seq<nat>)
    requires |bufs| == NUM_BUFS && SitesLive(dev, bufs, sites) && key !in sites
    requires forall i :: 0 <= i < |key.binds| ==> key.binds[i] < NUM_BUFS
    requires !key.dyn ==> words == Packed(key.words)
    ensures SitesLive(WithSite(dev, bufs, key, words), bufs, sites[key := Site(dev.next, dev.next + 1, words)])
  {
    hide Packed, Rids;
    var dev', sites' := WithSite(dev, bufs, key, words), sites[key := Site(dev.next, dev.next + 1, words)];
    forall k | k in sites' ensures SiteLive(dev', bufs, k, sites'[k]) {
      if k != key { assert SiteLive(dev, bufs, k, sites[k]); }
    }
    forall a, b | a in sites' && b in sites' && a != b ensures sites'[a].params != sites'[b].params {
      if a != key { assert SiteLive(dev, bufs, a, sites[a]); }
      if b != key { assert SiteLive(dev, bufs, b, sites[b]); }
    }
  }

  lemma RewriteSite(dev: Device, bufs: seq<nat>, sites: map<SiteKey, Site>, key: SiteKey, words: seq<nat>)
    requires |bufs| == NUM_BUFS && SitesLive(dev, bufs, sites) && key in sites && key.dyn
    ensures SitesLive(dev.(blocks := dev.blocks[sites[key].params := words]), bufs, sites[key := sites[key].(words := words)])
  {
    hide Packed, Rids;
    var dev', sites' := dev.(blocks := dev.blocks[sites[key].params := words]), sites[key := sites[key].(words := words)];
    assert SiteLive(dev, bufs, key, sites[key]);
    forall k | k in sites' ensures SiteLive(dev', bufs, k, sites'[k]) {
      assert SiteLive(dev, bufs, k, sites[k]);
    }
  }

  /** The ops so far: each has a site, whose set it dispatches; a dynamic site holds what
      its last op wants. */
  ghost predicate Planned(sites: map<SiteKey, Site>, ops: seq<Op>, recs: seq<Rec>, n: nat, mc: nat)
    requires |recs| <= |ops|
  {
    forall i :: 0 <= i < |recs| ==>
      var key := KeyOf(ops[i], n, mc);
      && key in sites && recs[i] == Rec(sites[key].uset, Describe(ops[i], n, mc).groups)
      && (!ops[i].dyn ==> sites[key].words == WordsOf(ops[i], n, mc))
      && (ops[i].dyn ==> var at := LastAt(ops, key, |recs|, n, mc); at >= i && sites[key].words == WordsOf(ops[at], n, mc))
  }

  lemma PlanOne(sites: map<SiteKey, Site>, sites': map<SiteKey, Site>, ops: seq<Op>, recs: seq<Rec>, n: nat, mc: nat)
    requires |recs| < |ops| && Planned(sites, ops, recs, n, mc)
    requires var key := KeyOf(ops[|recs|], n, mc);
             && key in sites' && sites'[key].words == WordsOf(ops[|recs|], n, mc)
             && (forall k :: k in sites && k != key ==> k in sites' && sites'[k] == sites[k])
             && (key in sites ==> sites'[key].uset == sites[key].uset)
             && (key in sites && !key.dyn ==> sites'[key] == sites[key])
    ensures var key := KeyOf(ops[|recs|], n, mc);
            Planned(sites', ops, recs + [Rec(sites'[key].uset, Describe(ops[|recs|], n, mc).groups)], n, mc)
  {
    hide Describe, Packed;
    var m := |recs|;
    var key := KeyOf(ops[m], n, mc);
    var recs' := recs + [Rec(sites'[key].uset, Describe(ops[m], n, mc).groups)];
    forall i | 0 <= i < |recs'|
      ensures var k := KeyOf(ops[i], n, mc);
              && k in sites' && recs'[i] == Rec(sites'[k].uset, Describe(ops[i], n, mc).groups)
              && (!ops[i].dyn ==> sites'[k].words == WordsOf(ops[i], n, mc))
              && (ops[i].dyn ==> var at := LastAt(ops, k, |recs'|, n, mc); at >= i && sites'[k].words == WordsOf(ops[at], n, mc))
    {
      var k := KeyOf(ops[i], n, mc);
      if i < m {
        assert k in sites;
        if k != key {
          assert LastAt(ops, k, m + 1, n, mc) == LastAt(ops, k, m, n, mc);
        }
      }
    }
  }

  // --- what a planned phase's dispatches see -----------------------------------------------------

  /** The i-th dispatch, as submitted, is what VecCpu runs for the i-th op. */
  ghost predicate RightAt(dev: Device, bufs: seq<nat>, ops: seq<Op>, recs: seq<Rec>, n: nat, mc: nat, i: nat)
    requires |bufs| == NUM_BUFS && i < |recs| == |ops| && ValidOp(ops[i])
  {
    var cmd := Bind(recs[i].uset, recs[i].groups);
    && cmd.uset in dev.sets && dev.sets[cmd.uset].params in dev.blocks
    && Runs(bufs, Seen(dev, cmd), CpuCall(ops[i], n, mc))
  }

  ghost predicate AllRight(dev: Device, bufs: seq<nat>, ops: seq<Op>, recs: seq<Rec>, n: nat, mc: nat)
    requires |bufs| == NUM_BUFS && |recs| == |ops| && forall i :: 0 <= i < |ops| ==> ValidOp(ops[i])
  {
    forall i :: 0 <= i < |ops| ==> RightAt(dev, bufs, ops, recs, n, mc, i)
  }

  /** What the i-th dispatch's block holds. */
  lemma SeenWords(dev: Device, bufs: seq<nat>, sites: map<SiteKey, Site>, ops: seq<Op>, recs: seq<Rec>, n: nat, mc: nat, i: nat)
    requires |bufs| == NUM_BUFS && SitesLive(dev, bufs, sites) && |recs| == |ops| && Planned(sites, ops, recs, n, mc)
    requires i < |ops| && ValidOp(ops[i])
    ensures var at := if ops[i].dyn then LastAt(ops, KeyOf(ops[i], n, mc), |ops|, n, mc) else i;
            at >= i && (RightAt(dev, bufs, ops, recs, n, mc, i) <==> WordsOf(ops[at], n, mc) == WordsOf(ops[i], n, mc))
  {
    hide Packed, Describe, Runs, CpuCall;
    var key := KeyOf(ops[i], n, mc);
    assert SiteLive(dev, bufs, key, sites[key]);
    var j, w := Seen(dev, Bind(recs[i].uset, recs[i].groups)), Wanted(bufs, ops[i], n, mc);
    assert j == w.(words := j.words);
    WantedRuns(bufs, ops[i], n, mc);
    if Runs(bufs, j, CpuCall(ops[i], n, mc)) { RunsWords(bufs, j, ops[i], n, mc); }
  }

  /** Every dispatch sees its own buffers and params words exactly when no dynamic site is
      asked for two different params blocks. */
  lemma RightUnlessClashed(dev: Device, bufs: seq<nat>, sites: map<SiteKey, Site>, ops: seq<Op>, recs: seq<Rec>, n: nat, mc: nat)
    requires |bufs| == NUM_BUFS && SitesLive(dev, bufs, sites) && |recs| == |ops| && Planned(sites, ops, recs, n, mc)
    requires forall i :: 0 <= i < |ops| ==> ValidOp(ops[i])
    ensures AllRight(dev, bufs, ops, recs, n, mc) <==> Unclashed(ops, n, mc)
  {
    hide SitesLive, Planned, RightAt, WordsOf, KeyOf;
    if AllRight(dev, bufs, ops, recs, n, mc) {
      forall i, j | 0 <= i < j < |ops| ensures Agree(ops[i], ops[j], n, mc) {
        SeenWords(dev, bufs, sites, ops, recs, n, mc, i);
        SeenWords(dev, bufs, sites, ops, recs, n, mc, j);
        assert RightAt(dev, bufs, ops, recs, n, mc, i) && RightAt(dev, bufs, ops, recs, n, mc, j);
      }
    }
    if Unclashed(ops, n, mc) {
      forall i | 0 <= i < |ops| ensures RightAt(dev, bufs, ops, recs, n, mc, i) {
        SeenWords(dev, bufs, sites, ops, recs, n, mc, i);
        if ops[i].dyn {
          var at := LastAt(ops, KeyOf(ops[i], n, mc), |ops|, n, mc);
          if i < at { assert Agree(ops[i], ops[at], n, mc); }
        }
      }
    }
  }

  // --- the recorded list ---------------------------------------------------------------------------

  /** Pass 2: the dispatches with work, a barrier after each but the last record's. */
  function Listing(recs: seq<Rec>, total: nat): (list: seq<Cmd>)
    requires |recs| <= total
  {
    if recs == [] then []
    else
      var i := |recs| - 1;
      Listing(recs[..i], total) +
      if recs[i].groups == 0 then []
      else [Bind(recs[i].uset, recs[i].groups)] + if i + 1 < total then [Barrier] else []
  }

  /** A barrier stands between any two dispatches. */
  lemma {:induction false} ListingSeparated(recs: seq<Rec>, total: nat)
    requires |recs| <= total
    ensures forall i, j :: 0 <= i < j < |Listing(recs, total)| && Listing(recs, total)[i].Bind? && Listing(recs, total)[j].Bind? ==>
                             i + 1 < j && Listing(recs, total)[i + 1].Barrier?
    ensures Listing(recs, total) != [] && |recs| < total ==> Listing(recs, total)[|Listing(recs, total)| - 1].Barrier?
  {
    if recs != [] { ListingSeparated(recs[..|recs| - 1], total); }
  }

  /** Dispatches separated by barriers run in order. */
  function Execute<M>(dev: Device, list: seq<Cmd>, exec: (Job, M) -> M, mem: M): M
    requires forall i :: 0 <= i < |list| && list[i].Bind? ==> list[i].uset in dev.sets && dev.sets[list[i].uset].params in dev.blocks
  {
    if list == [] then mem
    else
      var i := |list| - 1;
      var before := Execute(dev, list[..i], exec, mem);
      if list[i].Bind? then exec(Seen(dev, list[i]), before) else before
  }

  /** VecCpu::run: the blocks of the ops one after another. */
  function CpuRun<M>(ops: seq<Op>, n: nat, mc: nat, cpu: (Call, M) -> M, mem: M): M {
    if ops == [] then mem
    else
      var i := |ops| - 1;
      cpu(CpuCall(ops[i], n, mc), CpuRun(ops[..i], n, mc, cpu, mem))
  }

  /** The kernels are the same on both sides: a job that runs a call has its effect, and a
      call without threads has none. */
  ghost predicate SameKernels<M(!new)>(bufs: seq<nat>, exec: (Job, M) -> M, cpu: (Call, M) -> M)
    requires |bufs| == NUM_BUFS
  {
    && (forall j: Job, c: Call, mem: M :: Runs(bufs, j, c) ==> exec(j, mem) == cpu(c, mem))
    && (forall c: Call, mem: M :: c.threads == 0 ==> cpu(c, mem) == mem)
  }

  lemma OneCall<M(!new)>(bufs: seq<nat>, exec: (Job, M) -> M, cpu: (Call, M) -> M, j: Job, c: Call, mem: M)
    requires |bufs| == NUM_BUFS && SameKernels(bufs, exec, cpu) && Runs(bufs, j, c)
    ensures cpu(c, mem) == (if j.groups == 0 then mem else exec(j, mem))
  {
  }

  ghost predicate Executable(dev: Device, list: seq<Cmd>) {
    forall i :: 0 <= i < |list| && list[i].Bind? ==> list[i].uset in dev.sets && dev.sets[list[i].uset].params in dev.blocks
  }

  /** The records up to k dispatch what the ops up to k want. */
  ghost predicate RightUpTo(dev: Device, bufs: seq<nat>, ops: seq<Op>, recs: seq<Rec>, n: nat, mc: nat, k: nat)
    requires |bufs| == NUM_BUFS && |recs| == |ops| && k <= |ops| && forall i :: 0 <= i < |ops| ==> ValidOp(ops[i])
  {
    forall i :: 0 <= i < k ==> RightAt(dev, bufs, ops, recs, n, mc, i)
  }

  lemma {:induction false} ListRefinesCpu<M(!new)>(dev: Device, bufs: seq<nat>, ops: seq<Op>, recs: seq<Rec>, n: nat, mc: nat,
                                                   exec: (Job, M) -> M, cpu: (Call, M) -> M, mem: M, k: nat)
    requires |bufs| == NUM_BUFS && |recs| == |ops| && k <= |ops| && forall i :: 0 <= i < |ops| ==> ValidOp(ops[i])
    requires RightUpTo(dev, bufs, ops, recs, n, mc, k) && SameKernels(bufs, exec, cpu)
    ensures Executable(dev, Listing(recs[..k], |recs|))
    ensures Execute(dev, Listing(recs[..k], |recs|), exec, mem) == CpuRun(ops[..k], n, mc, cpu, mem)
  {
    hide Runs, Seen, CpuCall, SameKernels;
    if k != 0 {
      var i := k - 1;
      ListRefinesCpu(dev, bufs, ops, recs, n, mc, exec, cpu, mem, i);
      assert ops[..k][..i] == ops[..i];
      assert RightAt(dev, bufs, ops, recs, n, mc, i);
      var cmd, before := Bind(recs[i].uset, recs[i].groups), CpuRun(ops[..i], n, mc, cpu, mem);
      OneCall(bufs, exec, cpu, Seen(dev, cmd), CpuCall(ops[i], n, mc), before);
      SeenGroups(dev, cmd);
      ExecuteRecord(dev, recs, i, exec, mem);
    }
  }

  /** The list up to one more record. */
  lemma ExecuteRecord<M>(dev: Device, recs: seq<Rec>, i: nat, exec: (Job, M) -> M, mem: M)
    requires i < |recs| && Executable(dev, Listing(recs[..i], |recs|))
    requires recs[i].uset in dev.sets && dev.sets[recs[i].uset].params in dev.blocks
    ensures Executable(dev, Listing(recs[..i + 1], |recs|))
    ensures var before := Execute(dev, Listing(recs[..i], |recs|), exec, mem);
            Execute(dev, Listing(recs[..i + 1], |recs|), exec, mem) ==
            if recs[i].groups == 0 then before else exec(Seen(dev, Bind(recs[i].uset, recs[i].groups)), before)
  {
    hide Seen;
    assert recs[..i + 1][..i] == recs[..i];
    var before := Listing(recs[..i], |recs|);
    if recs[i].groups == 0 {
      assert Listing(recs[..i + 1], |recs|) == before;
    } else {
      var cmd := Bind(recs[i].uset, recs[i].groups);
      ExecuteOne(dev, before, cmd, exec, mem);
      if i + 1 < |recs| {
        assert Listing(recs[..i + 1], |recs|) == before + [cmd] + [Barrier];
        ExecuteOne(dev, before + [cmd], Barrier, exec, mem);
      } else {
        assert Listing(recs[..i + 1], |recs|) == before + [cmd];
      }
    }
  }

  /** A phase whose dispatches see what they should does what VecCpu::run does. */
  lemma PhaseRefinesCpu<M(!new)>(dev: Device, bufs: seq<nat>, ops: seq<Op>, recs: seq<Rec>, n: nat, mc: nat,
                                 exec: (Job, M) -> M, cpu: (Call, M) -> M, mem: M)
    requires |bufs| == NUM_BUFS && |recs| == |ops| && forall i :: 0 <= i < |ops| ==> ValidOp(ops[i])
    requires AllRight(dev, bufs, ops, recs, n, mc) && SameKernels(bufs, exec, cpu)
    ensures Executable(dev, Listing(recs, |recs|))
    ensures Execute(dev, Listing(recs, |recs|), exec, mem) == CpuRun(ops, n, mc, cpu, mem)
  {
    hide RightAt, Listing;
    assert recs[..|recs|] == recs && ops[..|ops|] == ops;
    ListRefinesCpu(dev, bufs, ops, recs, n, mc, exec, cpu, mem, |ops|);
  }

  lemma SeenGroups(dev: Device, cmd: Cmd)
    requires cmd.Bind? && cmd.uset in dev.sets && dev.sets[cmd.uset].params in dev.blocks
    ensures Seen(dev, cmd).groups == cmd.groups
  {
  }

  lemma ExecuteOne<M>(dev: Device, list: seq<Cmd>, cmd: Cmd, exec: (Job, M) -> M, mem: M)
    requires Executable(dev, list) && (cmd.Bind? ==> cmd.uset in dev.sets && dev.sets[cmd.uset].params in dev.blocks)
    ensures Executable(dev, list + [cmd])
    ensures Execute(dev, list + [cmd], exec, mem) ==
            if cmd.Bind? then exec(Seen(dev, cmd), Execute(dev, list, exec, mem)) else Execute(dev, list, exec, mem)
  {
    hide Seen;
    assert (list + [cmd])[..|list|] == list;
  }

  // --- the backend -----------------------------------------------------------------------------------

  class VecRd {
    var dev: Device
    var bufs: seq<nat>
    var sites: map<SiteKey, Site>
    var n: nat
    var mc: nat
    var pending: bool

    ghost predicate Valid()
      reads this
    {
      && Fresh(dev) && |bufs| == NUM_BUFS && dev.next > 0
      && SitesLive(dev, bufs, sites)
    }

    constructor ()
      ensures Valid() && n == 0 && !pending && sites == map[]
    {
      dev := Device(map[], map[], 1);
      bufs := seq(NUM_BUFS, i => 0);
      sites, n, mc, pending := map[], 0, 0, false;
    }

    method Sync()
      requires Valid()
      modifies `pending
      ensures Valid() && !pending
    {
      pending := false;
    }

    /** Every site's set and block released, and the sites forgotten. */
    method FreeSites()
      requires Valid()
      modifies `dev, `sites
      ensures Valid() && sites == map[] && dev.next == old(dev.next)
      ensures forall r :: r in dev.blocks ==> r in old(dev.blocks)
      ensures forall key :: key in old(sites) ==> old(sites)[key].params !in dev.blocks && old(sites)[key].uset !in dev.sets
    {
      hide SiteLive;
      var sets := set key | key in sites :: sites[key].uset;
      var blocks := set key | key in sites :: sites[key].params;
      dev := dev.(sets := dev.sets - sets, blocks := dev.blocks - blocks);
      sites := map[];
    }

    /** setup(): new buffers; the sets that named the old ones go first. A buffer that
        cannot be made leaves the ones before it, and none from there on. */
    method Setup(n: nat, mcap: nat, deviceOk: nat -> bool) returns (ok: bool)
      requires Valid()
      modifies this
      ensures Valid() && (ok <==> n > 0 && 0 < mcap <= 16 && forall b :: 0 <= b < NUM_BUFS ==> deviceOk(b))
      ensures n > 0 && 0 < mcap <= 16 ==> sites == map[] && !pending && this.n == n && mc == mcap
      ensures n > 0 && 0 < mcap <= 16 ==> forall i :: 0 <= i < NUM_BUFS ==> bufs[i] == 0 || bufs[i] >= old(dev.next)
      ensures n > 0 && 0 < mcap <= 16 ==> forall i, j :: 0 <= i < j < NUM_BUFS && bufs[i] == bufs[j] ==> bufs[i] == 0
      ensures n == 0 || mcap == 0 || mcap > 16 ==> bufs == old(bufs) && sites == old(sites) && this.n == old(this.n)
      ensures ok ==> AllMade(bufs)
    {
      if n == 0 || mcap == 0 || mcap > 16 { return false; }
      if pending { Sync(); }
      FreeSites();
      this.n, mc := n, mcap;
      ok := MakeBuffers(deviceOk);
    }

    method MakeBuffers(deviceOk: nat -> bool) returns (ok: bool)
      requires Valid() && sites == map[]
      modifies `dev, `bufs
      ensures Valid() && (ok <==> forall b :: 0 <= b < NUM_BUFS ==> deviceOk(b)) && (ok ==> AllMade(bufs))
      ensures forall i :: 0 <= i < NUM_BUFS ==> bufs[i] == 0 || bufs[i] >= old(dev.next)
      ensures forall i, j :: 0 <= i < j < NUM_BUFS && bufs[i] == bufs[j] ==> bufs[i] == 0
    {
      bufs := seq(NUM_BUFS, i => 0);
      for b := 0 to NUM_BUFS
        invariant Fresh(dev) && |bufs| == NUM_BUFS && sites == map[] && dev.next == old(dev.next) + b && dev.next > 0
        invariant forall c :: 0 <= c < b ==> deviceOk(c) && bufs[c] == old(dev.next) + c
        invariant forall c :: b <= c < NUM_BUFS ==> bufs[c] == 0
      {
        if !deviceOk(b) { return false; }
        bufs := bufs[b := dev.next];
        dev := dev.(next := dev.next + 1);
      }
      return true;
    }

    /** One op's site: cached, rewritten when its words changed, or made. What cannot be
        made leaves no block behind. */
    method Plan(o: Op, answer: Answer) returns (ok: bool, rec: Rec)
      requires Valid() && ValidOp(o)
      modifies `dev, `sites
      ensures Valid()
      ensures ok ==> var key := KeyOf(o, n, mc);
                && key in sites && sites[key].words == WordsOf(o, n, mc) && rec == Rec(sites[key].uset, Describe(o, n, mc).groups)
                && (forall k :: k in old(sites) && k != key ==> k in sites && sites[k] == old(sites)[k])
                && (key in old(sites) ==> sites[key].uset == old(sites)[key].uset)
                && (key in old(sites) && !key.dyn ==> sites[key] == old(sites)[key])
      ensures !ok ==> sites == old(sites) && dev.blocks == old(dev.blocks) && dev.sets == old(dev.sets)
      ensures Works(answer) && AllMade(bufs) ==> ok
    {
      hide Packed, Describe, KeyOf, SitesLive, WithSite;
      KeyWords(o, n, mc);
      var d := Describe(o, n, mc);
      var key, words := KeyOf(o, n, mc), Packed(d.params);
      if key !in sites {
        ok := MakeSite(key, words, answer);
        if !ok { return false, Rec(0, 0); }
      } else {
        Cached(dev, bufs, sites, o, n, mc);
        if sites[key].words != words {
          if !answer.write { return false, Rec(0, 0); }
          RewriteSite(dev, bufs, sites, key, words);
          dev := dev.(blocks := dev.blocks[sites[key].params := words]);
          sites := sites[key := sites[key].(words := words)];
          LiveIsFresh(dev, bufs, sites);
        }
      }
      return true, Rec(sites[key].uset, d.groups);
    }

    /** A site's block and the set over it; a buffer that does not exist or a set that
        cannot be made takes the block with it. */
    method MakeSite(key: SiteKey, words: seq<nat>, answer: Answer) returns (ok: bool)
      requires Valid() && key !in sites && (!key.dyn ==> words == Packed(key.words))
      requires forall i :: 0 <= i < |key.binds| ==> key.binds[i] < NUM_BUFS
      modifies `dev, `sites
      ensures Valid() && (ok <==> answer.block && answer.uset && Bound(bufs, key.binds))
      ensures ok ==> key in sites && sites[key].words == words && forall k :: k in old(sites) ==> k in sites && sites[k] == old(sites)[k]
      ensures !ok ==> sites == old(sites) && dev.blocks == old(dev.blocks) && dev.sets == old(dev.sets)
    {
      hide Packed, Rids, SiteLive;
      if !answer.block { return false; }
      ghost var dev0 := dev;
      var block := dev.next;
      dev := dev.(blocks := dev.blocks[block := words], next := block + 1);
      if !Bound(bufs, key.binds) || !answer.uset {
        dev := dev.(blocks := dev.blocks - {block});
        assert dev.blocks == dev0.blocks;
        SkipsIndex(dev0, dev, bufs, sites);
        return false;
      }
      var uset := dev.next;
      dev := dev.(sets := dev.sets[uset := USet(key.kernel, Rids(bufs, key.binds), block)], next := uset + 1);
      assert dev == WithSite(dev0, bufs, key, words);
      AddSite(dev0, bufs, sites, key, words);
      sites := sites[key := Site(block, uset, words)];
      LiveIsFresh(dev, bufs, sites);
      return true;
    }

    /** An index used up changes nothing. */
    static lemma SkipsIndex(dev: Device, dev': Device, bufs: seq<nat>, sites: map<SiteKey, Site>)
      requires |bufs| == NUM_BUFS && SitesLive(dev, bufs, sites)
      requires dev'.blocks == dev.blocks && dev'.sets == dev.sets && dev'.next >= dev.next
      ensures SitesLive(dev', bufs, sites) && Fresh(dev')
    {
      hide Packed, Rids;
      forall key | key in sites ensures SiteLive(dev', bufs, key, sites[key]) {
        assert SiteLive(dev, bufs, key, sites[key]);
      }
    }

    static lemma KeyWords(o: Op, n: nat, mc: nat)
      requires ValidOp(o)
      ensures var key := KeyOf(o, n, mc);
              && key.dyn == o.dyn && (forall i :: 0 <= i < |key.binds| ==> key.binds[i] < NUM_BUFS)
              && (!key.dyn ==> Packed(key.words) == WordsOf(o, n, mc))
    {
      BindsInRange(o, n, mc);
    }

    static lemma LiveIsFresh(dev: Device, bufs: seq<nat>, sites: map<SiteKey, Site>)
      requires |bufs| == NUM_BUFS && SitesLive(dev, bufs, sites)
      ensures Fresh(dev)
    {
    }

    /** A cached static site already holds the words its key names. */
    static lemma Cached(dev: Device, bufs: seq<nat>, sites: map<SiteKey, Site>, o: Op, n: nat, mc: nat)
      requires |bufs| == NUM_BUFS && SitesLive(dev, bufs, sites) && ValidOp(o) && KeyOf(o, n, mc) in sites
      ensures var key := KeyOf(o, n, mc); sites[key].words != WordsOf(o, n, mc) ==> key.dyn
    {
      hide Packed, Describe;
      KeyWords(o, n, mc);
      assert SiteLive(dev, bufs, KeyOf(o, n, mc), sites[KeyOf(o, n, mc)]);
    }

    /** run(): pass 1 plans every op, writing params blocks before any recording; pass 2
        records one list and submits it. */
    method Run(ops: seq<Op>, answers: nat -> Answer) returns (ok: bool, list: seq<Cmd>, ghost recs: seq<Rec>)
      requires Valid() && forall i :: 0 <= i < |ops| ==> ValidOp(ops[i])
      modifies `dev, `sites, `pending
      ensures Valid() && n == old(n) && mc == old(mc) && bufs == old(bufs)
      ensures (forall i :: Works(answers(i))) && AllMade(bufs) ==> (ok <==> n > 0 && Accepted(ops, |ops|, n, mc))
      ensures ok ==> n > 0 && Accepted(ops, |ops|, n, mc) && pending
      ensures ok ==> |recs| == |ops| && list == Listing(recs, |recs|)
      ensures ok ==> (AllRight(dev, bufs, ops, recs, n, mc) <==> Unclashed(ops, n, mc))
      ensures ok && Unclashed(ops, n, mc) ==> forall i :: 0 <= i < |ops| ==>
                var cmd := Bind(recs[i].uset, recs[i].groups);
                && cmd.uset in dev.sets && dev.sets[cmd.uset].params in dev.blocks
                && Runs(bufs, Seen(dev, cmd), CpuCall(ops[i], n, mc))
    {
      hide SitesLive, Planned, KeyOf, Describe, PassesCheck, WordsOf, Accepted, Remembers, FloatEq, Listing, AllRight, Unclashed, Runs, CpuCall;
      recs := [];
      list := [];
      if n == 0 { return false, [], []; }
      if pending { Sync(); }
      var plan: seq<Rec> := [];
      var last: map<SiteKey, Op> := map[];
      NothingPlanned(sites, ops, n, mc);
      for i := 0 to |ops|
        invariant Valid() && n == old(n) > 0 && mc == old(mc) && bufs == old(bufs) && !pending
        invariant |plan| == i && Planned(sites, ops, plan, n, mc) && Accepted(ops, i, n, mc) && Remembers(last, ops, i, n, mc)
      {
        var o := ops[i];
        var key := KeyOf(o, n, mc);
        Checked(last, ops, i, n, mc);
        AcceptedMore(ops, i, n, mc);
        if o.dyn {
          if key in last && !(FloatEq(last[key].fa, o.fa) && FloatEq(last[key].fb, o.fb)) {
            return false, [], [];
          }
          last := last[key := o];
        }
        ghost var before := sites;
        var made, rec := Plan(o, answers(i));
        if !made { return false, [], []; }
        PlanOne(before, sites, ops, plan, n, mc);
        plan := plan + [rec];
      }
      recs := plan;
      RightUnlessClashed(dev, bufs, sites, ops, plan, n, mc);
      RightIs(dev, bufs, ops, plan, n, mc);
      list := Record(plan);
      pending := true;
      return true, list, plan;
    }

    static lemma RightIs(dev: Device, bufs: seq<nat>, ops: seq<Op>, recs: seq<Rec>, n: nat, mc: nat)
      requires |bufs| == NUM_BUFS && |recs| == |ops| && forall i :: 0 <= i < |ops| ==> ValidOp(ops[i])
      ensures AllRight(dev, bufs, ops, recs, n, mc) ==> forall i :: 0 <= i < |ops| ==>
                var cmd := Bind(recs[i].uset, recs[i].groups);
                && cmd.uset in dev.sets && dev.sets[cmd.uset].params in dev.blocks
                && Runs(bufs, Seen(dev, cmd), CpuCall(ops[i], n, mc))
    {
      hide Runs, CpuCall;
      if AllRight(dev, bufs, ops, recs, n, mc) {
        forall i | 0 <= i < |ops|
          ensures var cmd := Bind(recs[i].uset, recs[i].groups);
                  && cmd.uset in dev.sets && dev.sets[cmd.uset].params in dev.blocks
                  && Runs(bufs, Seen(dev, cmd), CpuCall(ops[i], n, mc))
        {
          assert RightAt(dev, bufs, ops, recs, n, mc, i);
        }
      }
    }

    static lemma AcceptedMore(ops: seq<Op>, i: nat, n: nat, mc: nat)
      requires i < |ops|
      ensures Accepted(ops, i + 1, n, mc) <==> Accepted(ops, i, n, mc) && PassesCheck(ops, i, n, mc)
      ensures Accepted(ops, |ops|, n, mc) ==> PassesCheck(ops, i, n, mc)
    {
      hide PassesCheck;
    }

    static lemma NothingPlanned(sites: map<SiteKey, Site>, ops: seq<Op>, n: nat, mc: nat)
      ensures Planned(sites, ops, [], n, mc) && Accepted(ops, 0, n, mc) && Remembers(map[], ops, 0, n, mc)
    {
    }

    /** last holds the last op at each dynamic site before the i-th. */
    static ghost predicate Remembers(last: map<SiteKey, Op>, ops: seq<Op>, i: nat, n: nat, mc: nat)
      requires i <= |ops|
    {
      forall key :: var at := LastAt(ops, key, i, n, mc); if at >= 0 then key in last && last[key] == ops[at] else key !in last
    }

    static lemma Checked(last: map<SiteKey, Op>, ops: seq<Op>, i: nat, n: nat, mc: nat)
      requires i < |ops| && Remembers(last, ops, i, n, mc)
      ensures var o, key := ops[i], KeyOf(ops[i], n, mc);
              PassesCheck(ops, i, n, mc) <==> !(o.dyn && key in last && !(FloatEq(last[key].fa, o.fa) && FloatEq(last[key].fb, o.fb)))
      ensures Remembers(if ops[i].dyn then last[KeyOf(ops[i], n, mc) := ops[i]] else last, ops, i + 1, n, mc)
    {
      hide KeyOf, FloatEq;
    }

    method Record(recs: seq<Rec>) returns (list: seq<Cmd>)
      ensures list == Listing(recs, |recs|)
    {
      list := [];
      for i := 0 to |recs|
        invariant list == Listing(recs[..i], |recs|)
      {
        assert recs[..i + 1][..i] == recs[..i];
        if recs[i].groups != 0 {
          list := list + [Bind(recs[i].uset, recs[i].groups)];
          if i + 1 < |recs| { list := list + [Barrier]; }
        }
      }
      assert recs[..|recs|] == recs;
    }
  }
}
