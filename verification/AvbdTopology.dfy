/** avbd_topology: vertex-to-constraint adjacency as a counting sort, and the
    greedy vertex colouring. */
module AvbdTopology {

  // --- counting sort ------------------------------------------------------------

  /** The places below n that hold v, in order. */
  function Places(keys: seq<nat>, v: nat, n: nat): (ps: seq<nat>)
    requires n <= |keys|
    ensures |ps| <= n
    ensures forall k :: 0 <= k < |ps| ==> ps[k] < n && keys[ps[k]] == v
  {
    if n == 0 then []
    else Places(keys, v, n - 1) + (if keys[n - 1] == v then [n - 1] else [])
  }

  /** Every place holding v is listed, once, in increasing order. */
  lemma {:induction false} PlacesExact(keys: seq<nat>, v: nat, n: nat)
    requires n <= |keys|
    ensures forall p :: 0 <= p < n && keys[p] == v ==> p in Places(keys, v, n)
    ensures forall i, j :: 0 <= i < j < |Places(keys, v, n)| ==> Places(keys, v, n)[i] < Places(keys, v, n)[j]
  {
    if n != 0 {
      PlacesExact(keys, v, n - 1);
    }
  }

  /** Where bucket v starts. */
  function Bucket(keys: seq<nat>, v: nat): nat {
    if v == 0 then 0 else Bucket(keys, v - 1) + |Places(keys, v - 1, |keys|)|
  }

  lemma {:induction false} BucketsApart(keys: seq<nat>, u: nat, v: nat)
    requires u < v
    ensures Bucket(keys, u) + |Places(keys, u, |keys|)| <= Bucket(keys, v)
    decreases v
  {
    hide Places;
    if u < v - 1 { BucketsApart(keys, u, v - 1); }
  }

  lemma {:induction false} PlacesGrow(keys: seq<nat>, v: nat, n: nat, m: nat)
    requires n <= m <= |keys|
    ensures |Places(keys, v, n)| <= |Places(keys, v, m)|
    ensures n < m && keys[n] == v ==> |Places(keys, v, n)| < |Places(keys, v, m)|
    decreases m
  {
    if n < m { PlacesGrow(keys, v, n, m - 1); }
  }

  /** The buckets of nKeys values hold every place. */
  lemma {:induction false} BucketsHoldAll(keys: seq<nat>, nKeys: nat, n: nat)
    requires n <= |keys| && forall i :: 0 <= i < n ==> keys[i] < nKeys
    ensures BucketUpTo(keys, nKeys, n) == n
  {
    hide Places, BucketUpTo;
    if n == 0 {
      EmptyBuckets(keys, nKeys);
    } else {
      BucketsHoldAll(keys, nKeys, n - 1);
      OneMorePlace(keys, nKeys, n);
    }
  }

  function BucketUpTo(keys: seq<nat>, v: nat, n: nat): nat
    requires n <= |keys|
  {
    if v == 0 then 0 else BucketUpTo(keys, v - 1, n) + |Places(keys, v - 1, n)|
  }

  lemma {:induction false} EmptyBuckets(keys: seq<nat>, v: nat)
    ensures BucketUpTo(keys, v, 0) == 0
  {
    if v != 0 { EmptyBuckets(keys, v - 1); }
  }

  lemma {:induction false} OneMorePlace(keys: seq<nat>, v: nat, n: nat)
    requires 0 < n <= |keys|
    ensures BucketUpTo(keys, v, n) == BucketUpTo(keys, v, n - 1) + (if keys[n - 1] < v then 1 else 0)
  {
    if v != 0 { OneMorePlace(keys, v - 1, n); }
  }

  lemma {:induction false} BucketIsUpTo(keys: seq<nat>, v: nat)
    ensures Bucket(keys, v) == BucketUpTo(keys, v, |keys|)
  {
    if v != 0 { BucketIsUpTo(keys, v - 1); }
  }

  lemma BucketTotal(keys: seq<nat>, nKeys: nat)
    requires forall i :: 0 <= i < |keys| ==> keys[i] < nKeys
    ensures Bucket(keys, nKeys) == |keys|
  {
    BucketIsUpTo(keys, nKeys);
    BucketsHoldAll(keys, nKeys, |keys|);
  }

  // --- build_csr ------------------------------------------------------------------

  /** For each vertex its incident (constraint, role) pairs, in constraint order. */
  datatype Csr = Csr(offsets: seq<nat>, idx: seq<nat>, role: seq<nat>)

  predicate InRange(conIdx: seq<nat>, nV: nat) {
    forall p :: 0 <= p < |conIdx| ==> conIdx[p] < nV
  }

  /** Place p of the flat index list is role r of constraint c. */
  predicate PairAt(c: nat, r: nat, K: nat, p: nat) {
    r < K && K * c + r == p
  }

  /** Entry k of v's bucket is v's k-th place below n. */
  predicate EntryIs(idx: seq<nat>, role: seq<nat>, K: nat, conIdx: seq<nat>, v: nat, n: nat, k: nat)
    requires n <= |conIdx| && k < |Places(conIdx, v, n)|
  {
    var at := Bucket(conIdx, v) + k;
    at < |idx| && at < |role| && PairAt(idx[at], role[at], K, Places(conIdx, v, n)[k])
  }

  ghost predicate Filled(idx: seq<nat>, role: seq<nat>, K: nat, conIdx: seq<nat>, n: nat)
    requires n <= |conIdx|
  {
    forall v: nat :: BucketFilled(idx, role, K, conIdx, n, v)
  }

  ghost predicate BucketFilled(idx: seq<nat>, role: seq<nat>, K: nat, conIdx: seq<nat>, n: nat, v: nat)
    requires n <= |conIdx|
  {
    forall k: nat :: k < |Places(conIdx, v, n)| ==> EntryIs(idx, role, K, conIdx, v, n, k)
  }

  ghost predicate ListsIncidence(csr: Csr, nV: nat, K: nat, conIdx: seq<nat>) {
    && |csr.offsets| == nV + 1 && |csr.idx| == |csr.role| == |conIdx|
    && (forall v :: 0 <= v <= nV ==> csr.offsets[v] == Bucket(conIdx, v))
    && Filled(csr.idx, csr.role, K, conIdx, |conIdx|)
  }

  ghost predicate Counted(keys: seq<nat>, counts: seq<nat>, n: nat)
    requires n <= |keys|
  {
    forall v :: 0 <= v < |counts| ==> counts[v] == |Places(keys, v, n)|
  }

  lemma CountOne(keys: seq<nat>, counts: seq<nat>, n: nat)
    requires n < |keys| && keys[n] < |counts| && Counted(keys, counts, n)
    ensures Counted(keys, counts[keys[n] := counts[keys[n]] + 1], n + 1)
  {
  }

  method CountKeys(nKeys: nat, keys: seq<nat>) returns (counts: seq<nat>)
    requires InRange(keys, nKeys)
    ensures |counts| == nKeys && Counted(keys, counts, |keys|)
  {
    hide Counted;
    counts := seq(nKeys, i => 0);
    CountNone(keys, counts);
    for p := 0 to |keys|
      invariant |counts| == nKeys && Counted(keys, counts, p)
    {
      CountOne(keys, counts, p);
      counts := counts[keys[p] := counts[keys[p]] + 1];
    }
  }

  lemma CountNone(keys: seq<nat>, counts: seq<nat>)
    requires forall v :: 0 <= v < |counts| ==> counts[v] == 0
    ensures Counted(keys, counts, 0)
  {
  }

  method Offsets(nKeys: nat, keys: seq<nat>, counts: seq<nat>) returns (offsets: seq<nat>)
    requires |counts| == nKeys && Counted(keys, counts, |keys|)
    ensures |offsets| == nKeys + 1 && forall v :: 0 <= v <= nKeys ==> offsets[v] == Bucket(keys, v)
  {
    hide Places;
    offsets := [0];
    for v := 0 to nKeys
      invariant |offsets| == v + 1 && forall u :: 0 <= u <= v ==> offsets[u] == Bucket(keys, u)
    {
      ghost var next := Bucket(keys, v + 1);
      assert next == offsets[v] + counts[v];
      offsets := offsets + [offsets[v] + counts[v]];
    }
  }

  /** Where place p goes: after the earlier places of its own bucket. */
  function Slot(conIdx: seq<nat>, p: nat): nat
    requires p < |conIdx|
  {
    Bucket(conIdx, conIdx[p]) + |Places(conIdx, conIdx[p], p)|
  }

  lemma SlotFits(conIdx: seq<nat>, p: nat, nV: nat)
    requires p < |conIdx| && InRange(conIdx, nV)
    ensures Slot(conIdx, p) < |conIdx| == Bucket(conIdx, nV)
  {
    hide Places, Bucket;
    PlacesGrow(conIdx, conIdx[p], p, |conIdx|);
    BucketsApart(conIdx, conIdx[p], nV);
    BucketTotal(conIdx, nV);
  }

  /** The slot of place p is not that of an earlier place. */
  lemma SlotFree(conIdx: seq<nat>, p: nat, v: nat, k: nat)
    requires p < |conIdx| && k < |Places(conIdx, v, p)|
    ensures Bucket(conIdx, v) + k != Slot(conIdx, p)
  {
    hide Places, Bucket;
    PlacesGrow(conIdx, conIdx[p], p, |conIdx|);
    PlacesGrow(conIdx, v, p, |conIdx|);
    if v < conIdx[p] { BucketsApart(conIdx, v, conIdx[p]); }
    if conIdx[p] < v { BucketsApart(conIdx, conIdx[p], v); }
  }

  lemma FillOne(idx: seq<nat>, role: seq<nat>, K: nat, conIdx: seq<nat>, p: nat, c: nat, r: nat)
    requires p < |conIdx| && PairAt(c, r, K, p) && Filled(idx, role, K, conIdx, p)
    requires Slot(conIdx, p) < |idx| && Slot(conIdx, p) < |role|
    ensures Filled(idx[Slot(conIdx, p) := c], role[Slot(conIdx, p) := r], K, conIdx, p + 1)
  {
    hide PairAt, Bucket;
    var idx', role', next := idx[Slot(conIdx, p) := c], role[Slot(conIdx, p) := r], p + 1;
    forall v: nat ensures BucketFilled(idx', role', K, conIdx, next, v) {
      assert BucketFilled(idx, role, K, conIdx, p, v);
      forall k: nat | k < |Places(conIdx, v, next)|
        ensures EntryIs(idx', role', K, conIdx, v, next, k)
      {
        if k < |Places(conIdx, v, p)| {
          assert EntryIs(idx, role, K, conIdx, v, p, k);
          SlotFree(conIdx, p, v, k);
        }
      }
    }
  }

  method BuildCsr(nV: nat, nCon: nat, K: nat, conIdx: seq<nat>) returns (csr: Csr)
    requires K > 0 && |conIdx| == K * nCon && InRange(conIdx, nV)
    ensures ListsIncidence(csr, nV, K, conIdx)
  {
    hide Places, Bucket, Filled, Counted;
    var counts := CountKeys(nV, conIdx);
    var offsets := Offsets(nV, conIdx, counts);
    BucketTotal(conIdx, nV);
    var total := offsets[nV];
    var idxArr: seq<nat>, roleArr: seq<nat> := seq(total, i => 0), seq(total, i => 0);
    var cursor: seq<nat> := seq(nV, i => 0);
    CountNone(conIdx, cursor);
    FillNone(idxArr, roleArr, K, conIdx);
    ghost var p := 0;
    for c := 0 to nCon
      invariant p == K * c <= |conIdx| && |cursor| == nV && |idxArr| == |roleArr| == |conIdx|
      invariant Counted(conIdx, cursor, p) && Filled(idxArr, roleArr, K, conIdx, p)
    {
      RowFits(K, c, nCon);
      for r := 0 to K
        invariant p == K * c + r && |cursor| == nV && |idxArr| == |roleArr| == |conIdx|
        invariant Counted(conIdx, cursor, p) && Filled(idxArr, roleArr, K, conIdx, p)
      {
        var v := conIdx[K * c + r];
        var at := offsets[v] + cursor[v];
        CountedAt(conIdx, cursor, p, v);
        SlotFits(conIdx, p, nV);
        FillOne(idxArr, roleArr, K, conIdx, p, c, r);
        CountOne(conIdx, cursor, p);
        idxArr := idxArr[at := c];
        roleArr := roleArr[at := r];
        cursor := cursor[v := cursor[v] + 1];
        p := p + 1;
      }
    }
    csr := Csr(offsets, idxArr, roleArr);
  }

  lemma RowFits(K: nat, c: nat, nCon: nat)
    requires c < nCon
    ensures K * c + K == K * (c + 1) <= K * nCon
  {
  }

  lemma CountedAt(keys: seq<nat>, counts: seq<nat>, n: nat, v: nat)
    requires n <= |keys| && Counted(keys, counts, n) && v < |counts|
    ensures counts[v] == |Places(keys, v, n)|
  {
  }

  lemma FillNone(idx: seq<nat>, role: seq<nat>, K: nat, conIdx: seq<nat>)
    ensures Filled(idx, role, K, conIdx, 0)
  {
  }

  /** The place of the flat index list that entry e names. */
  function Named(csr: Csr, K: nat, e: nat): nat
    requires e < |csr.idx| && e < |csr.role|
  {
    K * csr.idx[e] + csr.role[e]
  }

  lemma BucketEntry(csr: Csr, nV: nat, K: nat, conIdx: seq<nat>, v: nat, k: nat)
    requires InRange(conIdx, nV) && v < nV && ListsIncidence(csr, nV, K, conIdx)
    requires k < |Places(conIdx, v, |conIdx|)|
    ensures Bucket(conIdx, v) + k < |csr.idx| == |csr.role| && csr.role[Bucket(conIdx, v) + k] < K
    ensures Named(csr, K, Bucket(conIdx, v) + k) == Places(conIdx, v, |conIdx|)[k]
  {
    hide Places, Bucket;
    assert BucketFilled(csr.idx, csr.role, K, conIdx, |conIdx|, v);
    assert EntryIs(csr.idx, csr.role, K, conIdx, v, |conIdx|, k);
  }

  lemma BucketBounds(csr: Csr, nV: nat, K: nat, conIdx: seq<nat>, v: nat)
    requires InRange(conIdx, nV) && v < nV && ListsIncidence(csr, nV, K, conIdx)
    ensures csr.offsets[v] == Bucket(conIdx, v) && csr.offsets[v + 1] == Bucket(conIdx, v) + |Places(conIdx, v, |conIdx|)|
    ensures csr.offsets[v + 1] <= |csr.idx| == |csr.role|
  {
    hide Places, Filled;
    BucketTotal(conIdx, nV);
    if v + 1 < nV { BucketsApart(conIdx, v + 1, nV); }
  }

  /** build_csr lists exactly the incident pairs: every entry of v's bucket is a role
      v plays, every role v plays is an entry, and no role is listed twice. */
  lemma CsrExact(csr: Csr, nV: nat, K: nat, conIdx: seq<nat>, v: nat)
    requires InRange(conIdx, nV) && v < nV && ListsIncidence(csr, nV, K, conIdx)
    ensures csr.offsets[v] <= csr.offsets[v + 1] <= |csr.idx| == |csr.role|
    ensures forall e :: csr.offsets[v] <= e < csr.offsets[v + 1] ==>
              csr.role[e] < K && Named(csr, K, e) < |conIdx| && conIdx[Named(csr, K, e)] == v
    ensures forall p :: 0 <= p < |conIdx| && conIdx[p] == v ==>
              exists e :: csr.offsets[v] <= e < csr.offsets[v + 1] && Named(csr, K, e) == p
    ensures forall e, e' :: csr.offsets[v] <= e < e' < csr.offsets[v + 1] ==> Named(csr, K, e) < Named(csr, K, e')
  {
    hide Places, Bucket, Filled, Named;
    var ps, b := Places(conIdx, v, |conIdx|), Bucket(conIdx, v);
    PlacesExact(conIdx, v, |conIdx|);
    BucketBounds(csr, nV, K, conIdx, v);
    forall e | b <= e < b + |ps|
      ensures csr.role[e] < K && Named(csr, K, e) == ps[e - b]
    {
      BucketEntry(csr, nV, K, conIdx, v, e - b);
    }
    forall p | 0 <= p < |conIdx| && conIdx[p] == v
      ensures exists e :: csr.offsets[v] <= e < csr.offsets[v + 1] && Named(csr, K, e) == p
    {
      var k :| 0 <= k < |ps| && ps[k] == p;
      assert Named(csr, K, b + k) == p;
    }
  }
}
