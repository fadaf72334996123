/** rd_kernels: the cached uniform sets, over a device that reuses the indices of freed
    things.

    A thing on the device is told apart from everything before it by a number of its own,
    which no index shows; a set records the numbers of what it binds.  Coherent says that
    every cached set still binds the things its key's indices name now, so a stale set
    under a reused index would break it. */
module SetCache {

  /** A live thing on the device. Its uid is its own for ever; the index it is known by
      may have belonged to something freed, and may again. base is what a slot buffer
      holds. */
  datatype Thing = Buffer(uid: nat, base: nat) | USet(uid: nat, binds: seq<nat>)

  datatype Device = Device(live: map<nat, Thing>, next: nat)

  /** The index the device hands out: any that is not in use; 0 means none. */
  type Picker = map<nat, Thing> -> nat

  ghost predicate PicksFree(pick: Picker) {
    forall live :: pick(live) !in live && pick(live) > 0
  }

  ghost predicate DeviceOk(dev: Device) {
    && 0 !in dev.live
    && (forall i :: i in dev.live ==> dev.live[i].uid < dev.next)
    && (forall i, j :: i in dev.live && j in dev.live && i != j ==> dev.live[i].uid != dev.live[j].uid)
  }

  predicate IsBuffer(dev: Device, i: nat) {
    i in dev.live && dev.live[i].Buffer?
  }

  /** i names a live set that binds exactly these live buffers, in this order. */
  ghost predicate Binds(dev: Device, i: nat, bufs: seq<nat>) {
    && i in dev.live && dev.live[i].USet? && |dev.live[i].binds| == |bufs|
    && forall k :: 0 <= k < |bufs| ==> IsBuffer(dev, bufs[k]) && dev.live[i].binds[k] == dev.live[bufs[k]].uid
  }

  function Made(dev: Device, at: nat, thing: Thing): Device {
    Device(dev.live[at := thing], dev.next + 1)
  }

  /** Freeing a buffer frees every set that binds it. */
  function FreedBuffer(dev: Device, i: nat): (dev': Device)
    requires IsBuffer(dev, i)
    ensures dev'.next == dev.next
  {
    var uid := dev.live[i].uid;
    Device(map j | j in dev.live && j != i && !(dev.live[j].USet? && uid in dev.live[j].binds) :: dev.live[j], dev.next)
  }

  lemma MadeOk(dev: Device, at: nat, thing: Thing)
    requires DeviceOk(dev) && at !in dev.live && at > 0 && thing.uid == dev.next
    ensures DeviceOk(Made(dev, at, thing))
    ensures forall i, bufs :: Binds(dev, i, bufs) ==> Binds(Made(dev, at, thing), i, bufs)
  {
  }

  lemma FreedOk(dev: Device, i: nat)
    requires DeviceOk(dev) && IsBuffer(dev, i)
    ensures DeviceOk(FreedBuffer(dev, i)) && i !in FreedBuffer(dev, i).live
    ensures forall j :: IsBuffer(dev, j) && j != i ==> IsBuffer(FreedBuffer(dev, i), j) && FreedBuffer(dev, i).live[j] == dev.live[j]
  {
  }

  lemma BindsSurvive(dev: Device, b: nat, j: nat, bufs: seq<nat>)
    requires DeviceOk(dev) && IsBuffer(dev, b) && Binds(dev, j, bufs) && forall k :: 0 <= k < |bufs| ==> bufs[k] != b
    ensures Binds(FreedBuffer(dev, b), j, bufs)
  {
  }

  // --- the caches -------------------------------------------------------------------------------

  const WORDS_PER_SLOT: nat := 64
  const FIRST_CAP: nat := 8192

  /** (params, s0, s1, s2, dst), by index. */
  datatype Key = Key(params: nat, s0: nat, s1: nat, s2: nat, dst: nat)

  function Bufs(key: Key): seq<nat> {
    [key.params, key.s0, key.s1, key.s2, key.dst]
  }

  /** The tensors' buffers are all in the set. */
  predicate Over(key: Key, tensors: set<nat>) {
    key.s0 in tensors && key.s1 in tensors && key.s2 in tensors && key.dst in tensors
  }

  /** Every cached tensor set is live and binds the live buffers its key names now; the
      params table is one of them. */
  ghost predicate TensorSetsOk(dev: Device, params: nat, set0: map<Key, nat>) {
    forall key :: key in set0 ==> key.params == params && Binds(dev, set0[key], Bufs(key))
  }

  /** A slot's set is live and binds the slot's buffer, which holds base. */
  ghost predicate SlotHolds(dev: Device, ubo: nat, uset: nat, base: nat) {
    IsBuffer(dev, ubo) && dev.live[ubo].base == base && Binds(dev, uset, [ubo])
  }

  /** Slot set i holds base 64 * i. */
  ghost predicate SlotsOk(dev: Device, slotUbos: seq<nat>, slotSets: seq<nat>) {
    |slotUbos| == |slotSets| && forall i :: 0 <= i < |slotUbos| ==> SlotHolds(dev, slotUbos[i], slotSets[i], i * WORDS_PER_SLOT)
  }

  /** The tensor buffers, the params table and the slot buffers are live and apart. */
  ghost predicate Owned(dev: Device, tensors: set<nat>, params: nat, slotUbos: seq<nat>) {
    && (forall b :: b in tensors ==> IsBuffer(dev, b) && b != params && b !in slotUbos)
    && (params != 0 ==> IsBuffer(dev, params) && params !in slotUbos)
    && (forall i :: 0 <= i < |slotUbos| ==> IsBuffer(dev, slotUbos[i]))
  }

  /** What the caches rely on. */
  ghost predicate Coherent(dev: Device, tensors: set<nat>, params: nat, slotUbos: seq<nat>, slotSets: seq<nat>, set0: map<Key, nat>) {
    && DeviceOk(dev) && Owned(dev, tensors, params, slotUbos)
    && SlotsOk(dev, slotUbos, slotSets) && TensorSetsOk(dev, params, set0)
    && (params == 0 ==> set0 == map[])
    && (forall key :: key in set0 ==> Over(key, tensors))
  }

  /** The table's capacity for a number of slots: doubled from 8192. */
  function Doubled(cap: nat, slots: nat): (c: nat)
    requires cap > 0
    ensures c >= slots && c >= cap
    decreases if cap < slots then slots - cap else 0
  {
    if cap < slots then Doubled(2 * cap, slots) else cap
  }

  /** Whatever is made, what is cached stays coherent. */
  lemma MakeKeeps(dev: Device, at: nat, thing: Thing, tensors: set<nat>, params: nat, slotUbos: seq<nat>, slotSets: seq<nat>, set0: map<Key, nat>)
    requires Coherent(dev, tensors, params, slotUbos, slotSets, set0)
    requires at !in dev.live && at > 0 && thing.uid == dev.next
    ensures Coherent(Made(dev, at, thing), tensors, params, slotUbos, slotSets, set0)
    ensures at !in tensors && at != params && at !in slotUbos
  {
    MadeOk(dev, at, thing);
    hide Binds, DeviceOk;
    var dev' := Made(dev, at, thing);
    forall i | 0 <= i < |slotUbos| ensures SlotHolds(dev', slotUbos[i], slotSets[i], i * WORDS_PER_SLOT) {
      assert SlotHolds(dev, slotUbos[i], slotSets[i], i * WORDS_PER_SLOT);
    }
  }

  lemma AddTensor(dev: Device, b: nat, tensors: set<nat>, params: nat, slotUbos: seq<nat>, slotSets: seq<nat>, set0: map<Key, nat>)
    requires Coherent(dev, tensors, params, slotUbos, slotSets, set0)
    requires IsBuffer(dev, b) && b != params && b !in slotUbos
    ensures Coherent(dev, tensors + {b}, params, slotUbos, slotSets, set0)
  {
    hide Binds, DeviceOk, SlotHolds;
  }

  /** The sets forget_sets_of leaves. */
  function Without(set0: map<Key, nat>, b: nat): (m: map<Key, nat>)
  {
    map key | key in set0 && key.s0 != b && key.s1 != b && key.s2 != b && key.dst != b :: set0[key]
  }

  lemma FreeTensor(dev: Device, b: nat, tensors: set<nat>, params: nat, slotUbos: seq<nat>, slotSets: seq<nat>, set0: map<Key, nat>)
    requires Coherent(dev, tensors, params, slotUbos, slotSets, set0) && b in tensors && IsBuffer(dev, b)
    ensures Coherent(FreedBuffer(dev, b), tensors - {b}, params, slotUbos, slotSets, Without(set0, b))
    ensures b !in FreedBuffer(dev, b).live
  {
    FreedOk(dev, b);
    SlotsSurvive(dev, b, slotUbos, slotSets);
    SetsSurvive(dev, b, params, set0);
    OwnedSurvive(dev, b, tensors, params, slotUbos);
    KeysSurvive(set0, b, tensors);
    hide Binds, DeviceOk, SlotHolds, FreedBuffer, SlotsOk, TensorSetsOk, Owned, Without;
  }

  lemma OwnedSurvive(dev: Device, b: nat, tensors: set<nat>, params: nat, slotUbos: seq<nat>)
    requires DeviceOk(dev) && Owned(dev, tensors, params, slotUbos) && b in tensors && IsBuffer(dev, b)
    ensures Owned(FreedBuffer(dev, b), tensors - {b}, params, slotUbos)
  {
    FreedOk(dev, b);
    hide FreedBuffer, DeviceOk;
  }

  lemma KeysSurvive(set0: map<Key, nat>, b: nat, tensors: set<nat>)
    requires forall key :: key in set0 ==> Over(key, tensors)
    ensures var m := Without(set0, b);
            forall key :: key in m ==> Over(key, tensors - {b})
  {
  }

  lemma SetsSurvive(dev: Device, b: nat, params: nat, set0: map<Key, nat>)
    requires DeviceOk(dev) && IsBuffer(dev, b) && b != params && TensorSetsOk(dev, params, set0)
    ensures TensorSetsOk(FreedBuffer(dev, b), params, Without(set0, b))
  {
    FreedOk(dev, b);
    hide Binds, DeviceOk, FreedBuffer;
    var set1 := Without(set0, b);
    forall key: Key | key in set1 ensures key.params == params && Binds(FreedBuffer(dev, b), set1[key], Bufs(key)) {
      BindsSurvive(dev, b, set0[key], Bufs(key));
    }
  }

  /** A buffer nothing cached has to do with. */
  lemma FreeLoose(dev: Device, b: nat, tensors: set<nat>, params: nat, slotUbos: seq<nat>, slotSets: seq<nat>, set0: map<Key, nat>)
    requires Coherent(dev, tensors, params, slotUbos, slotSets, set0)
    requires IsBuffer(dev, b) && b !in tensors && b != params && b !in slotUbos
    ensures Coherent(FreedBuffer(dev, b), tensors, params, slotUbos, slotSets, set0)
    ensures FreedBuffer(dev, b).live.Keys <= dev.live.Keys - {b}
  {
    hide Coherent, IsBuffer, FreedBuffer;
    KeysAreTensors(dev, tensors, params, slotUbos, slotSets, set0);
    AddTensor(dev, b, tensors, params, slotUbos, slotSets, set0);
    FreeTensor(dev, b, tensors + {b}, params, slotUbos, slotSets, set0);
    assert Without(set0, b) == set0;
    assert tensors + {b} - {b} == tensors;
    FreedKeys(dev, b);
  }

  lemma FreedKeys(dev: Device, b: nat)
    requires IsBuffer(dev, b)
    ensures FreedBuffer(dev, b).live.Keys <= dev.live.Keys - {b}
  {
  }

  lemma KeysAreTensors(dev: Device, tensors: set<nat>, params: nat, slotUbos: seq<nat>, slotSets: seq<nat>, set0: map<Key, nat>)
    requires Coherent(dev, tensors, params, slotUbos, slotSets, set0)
    ensures forall key :: key in set0 ==> Over(key, tensors)
  {
  }

  lemma FreeParams(dev: Device, tensors: set<nat>, params: nat, slotUbos: seq<nat>, slotSets: seq<nat>, set0: map<Key, nat>)
    requires Coherent(dev, tensors, params, slotUbos, slotSets, set0) && params != 0 && IsBuffer(dev, params)
    ensures Coherent(FreedBuffer(dev, params), tensors, 0, slotUbos, slotSets, map[])
  {
    FreedOk(dev, params);
    SlotsSurvive(dev, params, slotUbos, slotSets);
    NoZero(dev);
    hide Binds, DeviceOk, SlotHolds, FreedBuffer;
  }

  lemma NoZero(dev: Device)
    requires DeviceOk(dev)
    ensures !IsBuffer(dev, 0)
  {
  }

  lemma SlotsSurvive(dev: Device, b: nat, slotUbos: seq<nat>, slotSets: seq<nat>)
    requires DeviceOk(dev) && IsBuffer(dev, b) && b !in slotUbos && SlotsOk(dev, slotUbos, slotSets)
    ensures SlotsOk(FreedBuffer(dev, b), slotUbos, slotSets)
  {
    FreedOk(dev, b);
    hide Binds, DeviceOk, FreedBuffer;
    forall i | 0 <= i < |slotUbos| ensures SlotHolds(FreedBuffer(dev, b), slotUbos[i], slotSets[i], i * WORDS_PER_SLOT) {
      assert SlotHolds(dev, slotUbos[i], slotSets[i], i * WORDS_PER_SLOT);
      BindsSurvive(dev, b, slotSets[i], [slotUbos[i]]);
    }
  }

  lemma SetParams(dev: Device, p: nat, tensors: set<nat>, slotUbos: seq<nat>, slotSets: seq<nat>)
    requires Coherent(dev, tensors, 0, slotUbos, slotSets, map[])
    requires IsBuffer(dev, p) && p != 0 && p !in tensors && p !in slotUbos
    ensures Coherent(dev, tensors, p, slotUbos, slotSets, map[])
  {
    hide Binds, DeviceOk, SlotHolds;
  }

  lemma AddSet(dev: Device, key: Key, uset: nat, tensors: set<nat>, params: nat, slotUbos: seq<nat>, slotSets: seq<nat>, set0: map<Key, nat>)
    requires Coherent(dev, tensors, params, slotUbos, slotSets, set0) && params != 0
    requires key.params == params && Over(key, tensors) && Binds(dev, uset, Bufs(key))
    ensures Coherent(dev, tensors, params, slotUbos, slotSets, set0[key := uset])
  {
    hide Binds, DeviceOk, SlotHolds;
  }

  lemma AddSlot(dev: Device, ubo: nat, uset: nat, tensors: set<nat>, params: nat, slotUbos: seq<nat>, slotSets: seq<nat>, set0: map<Key, nat>)
    requires Coherent(dev, tensors, params, slotUbos, slotSets, set0)
    requires SlotHolds(dev, ubo, uset, |slotSets| * WORDS_PER_SLOT) && ubo !in tensors && ubo != params
    ensures Coherent(dev, tensors, params, slotUbos + [ubo], slotSets + [uset], set0)
  {
    assert IsBuffer(dev, ubo);
    hide Binds, DeviceOk, SlotHolds;
    var ubos, sets := slotUbos + [ubo], slotSets + [uset];
    forall i | 0 <= i < |ubos| ensures SlotHolds(dev, ubos[i], sets[i], i * WORDS_PER_SLOT) && IsBuffer(dev, ubos[i]) {
      if i < |slotUbos| { assert SlotHolds(dev, slotUbos[i], slotSets[i], i * WORDS_PER_SLOT); }
    }
  }

  /** A hit or a new set binds the five live buffers its key names. */
  lemma HitBinds(dev: Device, key: Key, tensors: set<nat>, params: nat, slotUbos: seq<nat>, slotSets: seq<nat>, set0: map<Key, nat>)
    requires Coherent(dev, tensors, params, slotUbos, slotSets, set0) && key in set0
    ensures Binds(dev, set0[key], Bufs(key))
  {
  }

  lemma LiveBuffers(dev: Device, tensors: set<nat>, params: nat, slotUbos: seq<nat>, slotSets: seq<nat>, set0: map<Key, nat>)
    requires Coherent(dev, tensors, params, slotUbos, slotSets, set0)
    ensures forall b :: b in tensors ==> IsBuffer(dev, b)
    ensures params != 0 ==> IsBuffer(dev, params)
    ensures DeviceOk(dev) && |slotUbos| == |slotSets|
    ensures forall i :: 0 <= i < |slotUbos| ==> SlotHolds(dev, slotUbos[i], slotSets[i], i * WORDS_PER_SLOT)
  {
    hide Binds, DeviceOk, SlotHolds;
  }

  class Caches {
    const pick: Picker
    var dev: Device
    /** The buffers the tensors live in. */
    var tensors: set<nat>
    var params: nat
    var paramsSlots: nat
    var slotUbos: seq<nat>
    var slotSets: seq<nat>
    var set0: map<Key, nat>

    ghost predicate Valid()
      reads this
    {
      PicksFree(pick) && Coherent(dev, tensors, params, slotUbos, slotSets, set0)
    }

    constructor (pick: Picker)
      requires PicksFree(pick)
      ensures Valid() && tensors == {} && params == 0 && slotSets == []
    {
      this.pick := pick;
      dev := Device(map[], 0);
      tensors, params, paramsSlots := {}, 0, 0;
      slotUbos, slotSets, set0 := [], [], map[];
    }

    /** A thing under whatever free index the device picks. */
    method Make(thing: Thing) returns (i: nat)
      requires Valid() && thing.uid == dev.next
      modifies `dev
      ensures Valid() && i !in old(dev).live && i > 0 && dev == Made(old(dev), i, thing)
      ensures i !in tensors && i != params && i !in slotUbos
    {
      hide Coherent;
      i := pick(dev.live);
      MakeKeeps(dev, i, thing, tensors, params, slotUbos, slotSets, set0);
      dev := Made(dev, i, thing);
    }

    /** A tensor buffer. */
    method AllocBuffer(ok: bool) returns (i: nat)
      requires Valid()
      modifies `dev, `tensors
      ensures Valid() && (if ok then i !in old(dev).live && i in dev.live && dev.live[i].uid == old(dev).next else i == 0)
      ensures tensors == if ok then old(tensors) + {i} else old(tensors)
    {
      hide Coherent;
      if !ok { return 0; }
      i := Make(Buffer(dev.next, 0));
      AddTensor(dev, i, tensors, params, slotUbos, slotSets, set0);
      tensors := tensors + {i};
    }

    /** buffer_free: the cached sets of the buffer are forgotten before it goes. */
    method FreeBuffer(b: nat)
      requires Valid() && b in tensors
      modifies `dev, `tensors, `set0
      ensures Valid() && tensors == old(tensors) - {b} && b !in dev.live
      ensures set0 == Without(old(set0), b)
    {
      hide Coherent, Without, FreedBuffer;
      LiveBuffers(dev, tensors, params, slotUbos, slotSets, set0);
      FreeTensor(dev, b, tensors, params, slotUbos, slotSets, set0);
      set0 := Without(set0, b);
      dev := FreedBuffer(dev, b);
      tensors := tensors - {b};
    }

    /** params_buffer: the table, grown when it is too small; growing forgets every
        tensor set. */
    method ParamsBuffer(slots: nat, ok: bool) returns (p: nat)
      requires Valid()
      modifies `dev, `params, `paramsSlots, `set0
      ensures Valid() && p == params
      ensures p != 0 ==> paramsSlots >= slots
      ensures old(params) != 0 && old(paramsSlots) >= slots ==> dev == old(dev) && params == old(params) && set0 == old(set0)
      ensures !(old(params) != 0 && old(paramsSlots) >= slots) ==> set0 == map[] && (p != 0 <==> ok)
    {
      hide Coherent, FreedBuffer;
      if params != 0 && paramsSlots >= slots { return params; }
      var cap := Doubled(FIRST_CAP, slots);
      if params != 0 {
        LiveBuffers(dev, tensors, params, slotUbos, slotSets, set0);
        FreeParams(dev, tensors, params, slotUbos, slotSets, set0);
        set0 := map[];
        dev := FreedBuffer(dev, params);
        params, paramsSlots := 0, 0;
      }
      NoTable(dev, tensors, slotUbos, slotSets, set0, params);
      if !ok { return 0; }
      p := Make(Buffer(dev.next, 0));
      SetParams(dev, p, tensors, slotUbos, slotSets);
      params, paramsSlots := p, cap;
    }

    static lemma NoTable(dev: Device, tensors: set<nat>, slotUbos: seq<nat>, slotSets: seq<nat>, set0: map<Key, nat>, params: nat)
      requires Coherent(dev, tensors, params, slotUbos, slotSets, set0) && params == 0
      ensures set0 == map[]
    {
    }

    /** tensor_set: hit or made, the set binds exactly the five live buffers asked for. */
    method TensorSet(s0: nat, s1: nat, s2: nat, dst: nat, ok: bool) returns (i: nat)
      requires Valid() && params != 0 && s0 in tensors && s1 in tensors && s2 in tensors && dst in tensors
      modifies `dev, `set0
      ensures Valid()
      ensures ok || Key(params, s0, s1, s2, dst) in old(set0) ==> Binds(dev, i, [params, s0, s1, s2, dst])
      ensures Key(params, s0, s1, s2, dst) in old(set0) ==> dev == old(dev) && i == old(set0)[Key(params, s0, s1, s2, dst)]
      ensures !ok && Key(params, s0, s1, s2, dst) !in old(set0) ==> i == 0 && dev == old(dev)
    {
      hide Coherent;
      var key := Key(params, s0, s1, s2, dst);
      if key in set0 {
        HitBinds(dev, key, tensors, params, slotUbos, slotSets, set0);
        return set0[key];
      }
      if !ok { return 0; }
      LiveBuffers(dev, tensors, params, slotUbos, slotSets, set0);
      var uids := [dev.live[params].uid, dev.live[s0].uid, dev.live[s1].uid, dev.live[s2].uid, dev.live[dst].uid];
      ghost var was := dev;
      i := Make(USet(dev.next, uids));
      MadeBinds(was, i, Bufs(key), uids);
      AddSet(dev, key, i, tensors, params, slotUbos, slotSets, set0);
      set0 := set0[key := i];
    }

    static lemma MadeBinds(dev: Device, at: nat, bufs: seq<nat>, uids: seq<nat>)
      requires at !in dev.live && |bufs| == |uids|
      requires forall k :: 0 <= k < |bufs| ==> IsBuffer(dev, bufs[k]) && uids[k] == dev.live[bufs[k]].uid
      ensures Binds(Made(dev, at, USet(dev.next, uids)), at, bufs)
    {
    }

    /** slot_set: the slots up to i made in order; slot i's set holds base 64 * i. */
    method SlotSet(i: nat, uboOk: nat -> bool, setOk: nat -> bool) returns (s: nat)
      requires Valid()
      modifies `dev, `slotUbos, `slotSets
      ensures Valid() && old(slotUbos) <= slotUbos && old(slotSets) <= slotSets
      ensures (forall j :: uboOk(j) && setOk(j)) || i < |old(slotSets)| ==> i < |slotSets| && s == slotSets[i]
      ensures i < |slotSets| ==> i < |slotUbos| && SlotHolds(dev, slotUbos[i], slotSets[i], i * WORDS_PER_SLOT)
    {
      hide Coherent;
      while |slotSets| <= i
        invariant Valid() && old(slotUbos) <= slotUbos && old(slotSets) <= slotSets
        decreases i + 1 - |slotSets|
      {
        var made := OneSlot(uboOk(|slotSets|), setOk(|slotSets|));
        if !made { return 0; }
      }
      LiveBuffers(dev, tensors, params, slotUbos, slotSets, set0);
      return slotSets[i];
    }

    /** A slot's buffer and the set over it. A set that cannot be made takes its buffer
        with it: nothing is left on the device. */
    method OneSlot(uboOk: bool, setOk: bool) returns (made: bool)
      requires Valid()
      modifies `dev, `slotUbos, `slotSets
      ensures Valid() && made == (uboOk && setOk)
      ensures if made then |slotSets| == |old(slotSets)| + 1 && old(slotUbos) <= slotUbos && old(slotSets) <= slotSets
              else slotUbos == old(slotUbos) && slotSets == old(slotSets) && dev.live.Keys <= old(dev).live.Keys
    {
      hide Coherent;
      if !uboOk { return false; }
      var base := |slotSets| * WORDS_PER_SLOT;
      var ubo := Make(Buffer(dev.next, base));
      if !setOk {
        FreeLoose(dev, ubo, tensors, params, slotUbos, slotSets, set0);
        dev := FreedBuffer(dev, ubo);
        return false;
      }
      SetOver(ubo);
      return true;
    }

    method SetOver(ubo: nat)
      requires Valid() && IsBuffer(dev, ubo) && dev.live[ubo].base == |slotSets| * WORDS_PER_SLOT
      requires ubo !in tensors && ubo != params && ubo !in slotUbos
      modifies `dev, `slotUbos, `slotSets
      ensures Valid() && slotUbos == old(slotUbos) + [ubo] && |slotSets| == |old(slotSets)| + 1 && old(slotSets) <= slotSets
    {
      LiveBuffers(dev, tensors, params, slotUbos, slotSets, set0);
      hide Coherent;
      ghost var dev1 := dev;
      var uids := [dev.live[ubo].uid];
      var uset := Make(USet(dev.next, uids));
      MadeBinds(dev1, uset, [ubo], uids);
      AddSlot(dev, ubo, uset, tensors, params, slotUbos, slotSets, set0);
      slotUbos, slotSets := slotUbos + [ubo], slotSets + [uset];
    }
  }
}
