/** rd_compute: the device's buffers, the permanent slots its handles hold, and the
    transfers it cuts into pieces. */
module DeviceTransfers {
  import opened Options

  type Byte = b: nat | b < 256

  /** The most bytes that cross the guest boundary at once. */
  const MAX_TRANSFER: nat := 0x100_0000

  function Least(a: nat, b: nat): nat {
    if a < b then a else b
  }

  /** (n + 3) & ~3 */
  function Words(n: nat): nat {
    (n + 3) / 4 * 4
  }

  function Zeros(n: nat): (z: seq<Byte>)
    ensures |z| == n && forall i :: 0 <= i < n ==> z[i] == 0
  {
    seq(n, i => 0)
  }

  /** The bytes a new buffer happens to hold. */
  function Undefined(n: nat, undefined: nat -> Byte): (z: seq<Byte>)
    ensures |z| == n
  {
    seq(n, i requires i >= 0 => undefined(i))
  }

  /** contents with data put at some offset. */
  function Written(contents: seq<Byte>, at: nat, data: seq<Byte>): (r: seq<Byte>)
    requires at + |data| <= |contents|
    ensures |r| == |contents| && r[at..at + |data|] == data
    ensures r[..at] == contents[..at] && r[at + |data|..] == contents[at + |data|..]
  {
    contents[..at] + data + contents[at + |data|..]
  }

  lemma WrittenMore(contents: seq<Byte>, at: nat, data: seq<Byte>, done: nat, n: nat)
    requires done + n <= |data| && at + done + n <= |contents|
    ensures Written(Written(contents, at, data[..done]), at + done, data[done..done + n]) == Written(contents, at, data[..done + n])
  {
    assert data[..done] + data[done..done + n] == data[..done + n];
  }

  lemma WrittenNone(contents: seq<Byte>, at: nat, data: seq<Byte>)
    requires at <= |contents|
    ensures Written(contents, at, data[..0]) == contents && data[..|data|] == data
  {
  }

  // --- one piece of a staged read ------------------------------------------------

  /** What buffer_get_into copies and takes once done bytes have arrived. */
  datatype Piece = Piece(lo: nat, span: nat, skew: nat, take: nat)

  function PieceAt(offset: nat, bytes: nat, done: nat, staging: nat): (p: Piece)
    requires done < bytes && staging >= 256
    ensures 0 < p.take && p.skew + p.take <= p.span && p.lo + p.skew == offset + done && p.lo % 4 == 0
  {
    var n := Least(bytes - done, staging);
    var lo := (offset + done) / 4 * 4;
    var skew := offset + done - lo;
    var span := Least(staging, Words(skew + n));
    Piece(lo, span, skew, Least(n, span - skew))
  }

  /** A copy takes whole words of a buffer that has them. */
  predicate Copyable(p: Piece, size: nat) {
    p.span % 4 == 0 && p.lo + p.span <= size
  }

  /** The read can be staged: its last word is in the buffer, and the staging buffer is
      whole words or holds the whole read. */
  predicate Stageable(offset: nat, bytes: nat, staging: nat, size: nat) {
    Words(offset + bytes) <= size && (staging % 4 == 0 || Words(offset % 4 + bytes) <= staging)
  }

  /** What holds after done bytes. */
  predicate StagedSoFar(offset: nat, bytes: nat, done: nat, staging: nat, size: nat) {
    && done <= bytes
    && (done > 0 ==> Words(offset + done) <= size)
    && (done > 0 && staging % 4 != 0 ==> done == bytes && Words(offset % 4 + bytes) <= staging)
  }

  lemma WordsAbove(n: nat)
    ensures n <= Words(n) < n + 4 && Words(n) % 4 == 0
  {
  }

  lemma WordsLeast(n: nat, m: nat)
    requires n <= m && m % 4 == 0
    ensures Words(n) <= m
  {
  }

  lemma WordsShift(lo: nat, n: nat)
    requires lo % 4 == 0
    ensures Words(lo + n) == lo + Words(n) && (lo + n) % 4 == n % 4
  {
  }

  /** The words a piece covers, among the words of the whole read. */
  lemma PieceWords(offset: nat, bytes: nat, done: nat, staging: nat)
    requires done < bytes && staging >= 256
    ensures var p, n := PieceAt(offset, bytes, done, staging), Least(bytes - done, staging);
            && p.skew < 4 && (done == 0 ==> p.skew == offset % 4)
            && p.span == Least(staging, Words(p.skew + n)) && p.take == Least(n, p.span - p.skew)
            && p.lo + Words(p.skew + n) == Words(offset + done + n)
            && Words(offset + done + n) <= Words(offset + bytes)
  {
    var p, n := PieceAt(offset, bytes, done, staging), Least(bytes - done, staging);
    WordsShift(p.lo, p.skew + n);
    WordsAbove(offset + bytes);
    WordsLeast(offset + done + n, Words(offset + bytes));
  }

  lemma PieceStages(offset: nat, bytes: nat, done: nat, staging: nat, size: nat)
    requires done < bytes && staging >= 256 && StagedSoFar(offset, bytes, done, staging, size)
    ensures var p := PieceAt(offset, bytes, done, staging);
            && p.span <= staging
            && (Copyable(p, size) ==> StagedSoFar(offset, bytes, done + p.take, staging, size) && offset + done + p.take <= size)
            && (Stageable(offset, bytes, staging, size) ==> Copyable(p, size))
  {
    var p, n := PieceAt(offset, bytes, done, staging), Least(bytes - done, staging);
    PieceWords(offset, bytes, done, staging);
    WordsAbove(p.skew + n);
    if Copyable(p, size) {
      CopiedStages(offset, bytes, done, staging, size);
    }
    if Stageable(offset, bytes, staging, size) && staging % 4 != 0 {
      assert done == 0;
      WordsAbove(offset % 4 + bytes);
    }
  }

  lemma CopiedStages(offset: nat, bytes: nat, done: nat, staging: nat, size: nat)
    requires done < bytes && staging >= 256 && StagedSoFar(offset, bytes, done, staging, size)
    requires Copyable(PieceAt(offset, bytes, done, staging), size)
    ensures var p := PieceAt(offset, bytes, done, staging);
            StagedSoFar(offset, bytes, done + p.take, staging, size) && offset + done + p.take <= size
  {
    hide Words, PieceAt;
    var p, n := PieceAt(offset, bytes, done, staging), Least(bytes - done, staging);
    PieceWords(offset, bytes, done, staging);
    WordsAbove(p.skew + n);
    assert p.lo + p.skew + p.take == offset + done + p.take <= p.lo + p.span;
    SpanIsWords(p);
    WordsLeast(offset + done + p.take, p.lo + p.span);
    if staging % 4 != 0 {
      assert p.span == Words(p.skew + n) < staging && p.take == n;
    }
  }

  lemma SpanIsWords(p: Piece)
    requires p.lo % 4 == 0 && p.span % 4 == 0
    ensures (p.lo + p.span) % 4 == 0
  {
  }

  lemma StagedIsStageable(offset: nat, bytes: nat, staging: nat, size: nat)
    requires bytes > 0 && StagedSoFar(offset, bytes, bytes, staging, size)
    ensures Stageable(offset, bytes, staging, size)
  {
    hide Words;
  }

  // --- the device ------------------------------------------------------------------

  /** What the engine's create call answers: no handle, a null one, or one. */
  datatype Answer = NotARid | NullRid | ARid

  /** The permanent index a handle gets: negative, and not one in use. */
  type Picker = set<int> -> int

  ghost predicate PicksFree(pick: Picker) {
    forall held :: pick(held) < 0 && pick(held) !in held
  }

  class Device {
    const pick: Picker
    var buffers: map<int, seq<Byte>>
    /** The permanent indices in use. */
    var held: set<int>
    var permanentLive: int
    var staging: int
    var stagingBytes: nat
    var stagingMax: nat
    var submitted: bool
    var listOpen: bool

    /** Every buffer holds a permanent slot, and the counter counts the slots. */
    ghost predicate Accounts()
      reads this
    {
      && PicksFree(pick) && permanentLive == |held| && buffers.Keys <= held
      && forall r :: r in held ==> r < 0
    }

    ghost predicate Valid()
      reads this
    {
      && Accounts() && 256 <= stagingMax <= MAX_TRANSFER && (staging == 0 <==> stagingBytes == 0)
      && (staging != 0 ==> staging in buffers && 256 <= stagingBytes && |buffers[staging]| == Words(stagingBytes))
    }

    /** The buffers the callers know. */
    function Shown(): map<int, seq<Byte>>
      reads this
    {
      buffers - {staging}
    }

    constructor (pick: Picker)
      requires PicksFree(pick)
      ensures Valid() && buffers == map[] && permanentLive == 0
    {
      this.pick := pick;
      buffers, held, permanentLive := map[], {}, 0;
      staging, stagingBytes, stagingMax := 0, 0, MAX_TRANSFER;
      submitted, listOpen := false, false;
    }

    method SetStagingMax(bytes: nat)
      requires Valid()
      modifies `stagingMax
      ensures Valid()
      ensures stagingMax == if bytes < 256 then 256 else Least(bytes, MAX_TRANSFER)
    {
      stagingMax := if bytes < 256 then 256 else if bytes > MAX_TRANSFER then MAX_TRANSFER else bytes;
    }

    /** rid_or_fail: a handle moved to a permanent slot, or 0. */
    method RidOrFail(answer: Answer) returns (rid: int)
      requires Accounts()
      modifies `held, `permanentLive
      ensures Accounts() && (rid == 0 <==> answer != ARid)
      ensures answer == ARid ==> rid < 0 && rid !in old(held) && held == old(held) + {rid}
      ensures answer != ARid ==> held == old(held)
    {
      if answer != ARid { return 0; }
      rid := pick(held);
      held := held + {rid};
      permanentLive := permanentLive + 1;
    }

    /** forget: the slot given back. */
    method Forget(rid: int)
      requires Accounts() && (rid < 0 ==> rid in held && rid !in buffers)
      modifies `held, `permanentLive
      ensures Accounts() && held == old(held) - {rid}
    {
      if rid >= 0 { return; }
      held := held - {rid};
      permanentLive := permanentLive - 1;
    }

    /** free_rid: the thing and its slot given back. */
    method FreeRid(rid: int)
      requires Accounts() && (rid == 0 || rid in held)
      modifies `buffers, `held, `permanentLive
      ensures Accounts() && held == old(held) - {rid} && buffers == old(buffers) - {rid}
    {
      if rid == 0 { return; }
      buffers := buffers - {rid};
      Forget(rid);
    }

    /** recover: a list a killed call left open is ended before anything else is asked. */
    method Recover()
      modifies `listOpen
      ensures !listOpen
    {
      listOpen := false;
    }

    /** list_begin: an orphaned list ended, and one open. */
    method ListBegin()
      modifies `listOpen
      ensures listOpen
    {
      Recover();
      listOpen := true;
    }

    method Submit()
      modifies `submitted, `listOpen
      ensures submitted && !listOpen
    {
      Recover();
      submitted := true;
    }

    method Sync()
      modifies `submitted
      ensures !submitted
    {
      submitted := false;
    }

    /** A storage buffer of these bytes, as the engine makes it. */
    method MakeBuffer(contents: seq<Byte>, answer: Answer) returns (rid: int)
      requires Accounts()
      modifies `buffers, `held, `permanentLive
      ensures Accounts() && (rid == 0 <==> answer != ARid)
      ensures rid == 0 ==> buffers == old(buffers) && held == old(held)
      ensures rid != 0 ==> rid < 0 && rid !in old(held) && held == old(held) + {rid} && buffers == old(buffers)[rid := contents]
    {
      rid := RidOrFail(answer);
      if rid != 0 { buffers := buffers[rid := contents]; }
    }

    /** storage_buffer_empty: whole words, undefined until cleared. */
    method StorageBufferEmpty(bytes: nat, clear: bool, undefined: nat -> Byte, answer: Answer, clears: bool) returns (rid: int)
      requires Accounts()
      modifies `buffers, `held, `permanentLive, `listOpen
      ensures Accounts() && (rid != 0 <==> answer == ARid && (clear ==> clears))
      ensures rid == 0 ==> buffers == old(buffers) && held == old(held)
      ensures rid != 0 ==> rid < 0 && rid !in old(held) && held == old(held) + {rid}
      ensures rid != 0 ==> rid in buffers && buffers - {rid} == old(buffers) && |buffers[rid]| == Words(bytes)
      ensures rid != 0 && clear ==> forall i :: 0 <= i < |buffers[rid]| ==> buffers[rid][i] == 0
    {
      rid := MakeBuffer(Undefined(Words(bytes), undefined), answer);
      if rid != 0 && clear {
        Recover();
        if !clears {
          FreeRid(rid);
          return 0;
        }
        buffers := buffers[rid := Zeros(Words(bytes))];
      }
    }

    /** buffer_update: one call for each piece, and one for no bytes at all. A failure
        leaves the pieces before it written. */
    method BufferUpdate(buffer: int, offset: nat, data: seq<Byte>, takes: nat -> bool) returns (ok: bool)
      requires Accounts() && buffer in buffers
      modifies `buffers, `listOpen
      ensures Accounts() && !listOpen && buffers.Keys == old(buffers).Keys && buffers - {buffer} == old(buffers) - {buffer}
      ensures ok ==> offset + |data| <= |old(buffers)[buffer]| && buffers[buffer] == Written(old(buffers)[buffer], offset, data)
      ensures |buffers[buffer]| == |old(buffers)[buffer]|
      ensures !ok ==> exists done :: PiecesWritten(old(buffers)[buffer], offset, data, done, buffers[buffer])
      ensures (forall i :: takes(i)) ==> (ok <==> offset + |data| <= |old(buffers)[buffer]|)
    {
      Recover();
      ghost var was := buffers[buffer];
      var done: nat := 0;
      if offset <= |was| { WrittenNone(was, offset, data); }
      var first := true;
      while first || done < |data|
        invariant Accounts() && !listOpen && buffers.Keys == old(buffers).Keys && buffers - {buffer} == old(buffers) - {buffer}
        invariant PiecesWritten(was, offset, data, done, buffers[buffer])
        invariant if first then done == 0 else offset + done <= |was|
        decreases first, |data| - done
      {
        var n := Least(|data| - done, MAX_TRANSFER);
        if !takes(done / MAX_TRANSFER) || offset + done + n > |buffers[buffer]| { return false; }
        buffers := buffers[buffer := Written(buffers[buffer], offset + done, data[done..done + n])];
        PieceWritten(was, offset, data, done, n);
        done := done + n;
        first := false;
      }
      WrittenAll(was, offset, data, done, buffers[buffer]);
      return true;
    }

    /** storage_buffer: the given bytes or zeros, in one call or, when they are too many,
        an empty buffer filled piece by piece. */
    method StorageBuffer(bytes: nat, data: Option<seq<Byte>>, undefined: nat -> Byte, answer: Answer, takes: nat -> bool, clears: bool)
      returns (rid: int)
      requires Accounts() && (data.Some? ==> |data.value| == bytes)
      modifies `buffers, `held, `permanentLive, `listOpen
      ensures Accounts() && (rid == 0 ==> held == old(held) && buffers == old(buffers))
      ensures rid != 0 ==> rid !in old(held) && held == old(held) + {rid} && rid in buffers && buffers - {rid} == old(buffers)
      ensures rid != 0 ==> |buffers[rid]| == if bytes > MAX_TRANSFER then Words(bytes) else bytes
      ensures rid != 0 && data.Some? ==> buffers[rid][..bytes] == data.value
      ensures rid != 0 && data.None? ==> forall i :: 0 <= i < bytes ==> buffers[rid][i] == 0
      ensures answer == ARid && (forall i :: takes(i)) && clears ==> rid != 0
    {
      if bytes <= MAX_TRANSFER {
        rid := MakeBuffer(if data.Some? then data.value else Zeros(bytes), answer);
        return;
      }
      rid := StorageBufferEmpty(bytes, data.None?, undefined, answer, clears);
      if rid != 0 && data.Some? {
        var ok := BufferUpdate(rid, 0, data.value, takes);
        if !ok {
          FreeRid(rid);
          return 0;
        }
      }
    }

    /** The staging buffer freed. */
    method DropStaging()
      requires Valid()
      modifies `buffers, `held, `permanentLive, `staging, `stagingBytes
      ensures Valid() && staging == 0 && buffers == old(Shown()) && held == old(held) - {old(staging)}
    {
      if staging != 0 {
        FreeRid(staging);
        staging, stagingBytes := 0, 0;
      }
    }

    /** The staging buffer grown to the read, up to the cap. */
    method GrowStaging(bytes: nat, undefined: nat -> Byte, answer: Answer) returns (ok: bool)
      requires Valid() && bytes > 0
      modifies `buffers, `held, `permanentLive, `staging, `stagingBytes, `listOpen
      ensures Valid() && Shown() == old(Shown())
      ensures ok ==> staging != 0 && stagingBytes == StagingFor(old(stagingBytes), stagingMax, bytes)
      ensures ok <==> answer == ARid || old(stagingBytes) == StagingFor(old(stagingBytes), stagingMax, bytes)
    {
      hide Words, Wanted, Zeros;
      var want := Wanted(stagingMax, bytes);
      if stagingBytes < want {
        DropStaging();
        staging := StorageBufferEmpty(want, false, undefined, answer, true);
        if staging == 0 { return false; }
        stagingBytes := want;
      }
      return true;
    }

    /** buffer_copy of one piece into the staging buffer. */
    method CopyToStaging(buffer: int, p: Piece, takes: bool) returns (ok: bool)
      requires Valid() && staging != 0 && buffer in buffers && buffer != staging && p.span <= stagingBytes
      modifies `buffers, `listOpen
      ensures Valid() && Shown() == old(Shown())
      ensures ok <==> takes && Copyable(p, |old(buffers)[buffer]|)
      ensures ok ==> p.span <= |buffers[staging]| && p.lo + p.span <= |old(buffers)[buffer]|
      ensures ok ==> buffers[staging][..p.span] == old(buffers)[buffer][p.lo..p.lo + p.span]
    {
      Recover();
      if !takes || !Copyable(p, |buffers[buffer]|) { return false; }
      buffers := buffers[staging := Written(buffers[staging], 0, buffers[buffer][p.lo..p.lo + p.span])];
      return true;
    }

    /** buffer_get_into: a read through the staging buffer, in pieces of whole words, gives
        exactly the bytes asked for and leaves every other buffer as it was. */
    method BufferGetInto(buffer: int, offset: nat, bytes: nat, undefined: nat -> Byte, answer: Answer, takes: nat -> bool)
      returns (ok: bool, out: seq<Byte>)
      requires Valid() && buffer in Shown()
      modifies `buffers, `held, `permanentLive, `staging, `stagingBytes, `listOpen
      ensures Valid() && Shown() == old(Shown())
      ensures submitted ==> !ok
      ensures ok && bytes == 0 ==> out == []
      ensures ok && bytes > 0 ==> offset + bytes <= |Shown()[buffer]| && out == Shown()[buffer][offset..offset + bytes]
      ensures !submitted && bytes == 0 ==> ok
      ensures answer == ARid && (forall i :: takes(i)) && !submitted && bytes > 0 ==>
                (ok <==> Stageable(offset, bytes, StagingFor(old(stagingBytes), stagingMax, bytes), |Shown()[buffer]|))
    {
      hide Words, PieceAt, Stageable, Accounts;
      out := [];
      if submitted { return false, []; }
      if bytes == 0 { return true, []; }
      ok := GrowStaging(bytes, undefined, answer);
      if !ok { return; }
      var done, piece := 0, 0;
      ghost var contents := Shown()[buffer];
      while done < bytes
        invariant Valid() && Shown() == old(Shown()) && staging != 0 && buffer in Shown() && contents == Shown()[buffer]
        invariant stagingBytes == StagingFor(old(stagingBytes), stagingMax, bytes)
        invariant StagedSoFar(offset, bytes, done, stagingBytes, |contents|)
        invariant done > 0 ==> offset + done <= |contents|
        invariant out == if done == 0 then [] else contents[offset..offset + done]
        decreases bytes - done
      {
        var p := PieceAt(offset, bytes, done, stagingBytes);
        PieceStages(offset, bytes, done, stagingBytes, |contents|);
        ok := CopyToStaging(buffer, p, takes(piece));
        if !ok { return; }
        out := out + Taken(contents, buffers[staging], p, offset, done);
        done, piece := done + p.take, piece + 1;
      }
      StagedIsStageable(offset, bytes, stagingBytes, |contents|);
      ok := true;
    }

    /** close: the staging buffer's slot given back. */
    method Close()
      requires Valid()
      modifies `buffers, `held, `permanentLive, `staging, `stagingBytes, `listOpen, `submitted
      ensures Valid() && staging == 0 && buffers == old(Shown()) && held == old(held) - {old(staging)}
      ensures !listOpen && !submitted
    {
      DropStaging();
      listOpen, submitted := false, false;
    }
  }

  /** A read's length in rows of 256, up to the cap. */
  function Wanted(max: nat, bytes: nat): (want: nat)
    requires bytes > 0 && max >= 256
    ensures 256 <= want <= max && (want < max ==> bytes <= want < bytes + 256)
  {
    Least(max, (bytes + 255) / 256 * 256)
  }

  /** The staging buffer's size for a read. */
  function StagingFor(now: nat, max: nat, bytes: nat): nat
    requires bytes > 0 && max >= 256
  {
    var want := Wanted(max, bytes);
    if now < want then want else now
  }

  lemma SliceOfSlice(s: seq<Byte>, lo: nat, hi: nat, a: nat, b: nat)
    requires lo <= hi <= |s| && a <= b <= hi - lo
    ensures s[lo..hi][a..b] == s[lo + a..lo + b]
  {
    var whole, got, want := s[lo..hi], s[lo..hi][a..b], s[lo + a..lo + b];
    assert |got| == b - a && |want| == b - a;
    forall k | 0 <= k < b - a ensures got[k] == want[k] {
      assert got[k] == whole[a + k] && whole[a + k] == s[lo + (a + k)] && want[k] == s[lo + a + k];
    }
  }

  /** The bytes wanted of a copied piece: the next ones of the read. */
  function Taken(ghost contents: seq<Byte>, staged: seq<Byte>, p: Piece, ghost offset: nat, ghost done: nat): (got: seq<Byte>)
    requires p.skew + p.take <= p.span <= |staged| && p.lo + p.span <= |contents| && p.lo + p.skew == offset + done
    requires staged[..p.span] == contents[p.lo..p.lo + p.span]
    ensures got == contents[offset + done..offset + done + p.take]
  {
    SliceOfSlice(staged, 0, p.span, p.skew, p.skew + p.take);
    SliceOfSlice(contents, p.lo, p.lo + p.span, p.skew, p.skew + p.take);
    staged[p.skew..p.skew + p.take]
  }

  /** The first done bytes of data written at offset, where they fit. */
  predicate PiecesWritten(was: seq<Byte>, offset: nat, data: seq<Byte>, done: nat, now: seq<Byte>) {
    && done <= |data| && (done == |data| || done % MAX_TRANSFER == 0)
    && (if done == 0 then now == was else offset + done <= |was| && now == Written(was, offset, data[..done]))
  }

  lemma PieceWritten(was: seq<Byte>, offset: nat, data: seq<Byte>, done: nat, n: nat)
    requires done + n <= |data| && offset + done + n <= |was|
    requires n == Least(|data| - done, MAX_TRANSFER) && done % MAX_TRANSFER == 0
    ensures var now := if done == 0 then was else Written(was, offset, data[..done]);
            PiecesWritten(was, offset, data, done + n, Written(now, offset + done, data[done..done + n]))
  {
    WrittenNone(was, offset, data);
    WrittenMore(was, offset, data, done, n);
    WrittenNone(was, offset, data[done..done + n]);
  }

  lemma WrittenAll(was: seq<Byte>, offset: nat, data: seq<Byte>, done: nat, now: seq<Byte>)
    requires PiecesWritten(was, offset, data, done, now) && done == |data| && offset + done <= |was|
    ensures now == Written(was, offset, data)
  {
    WrittenNone(was, offset, data);
  }

  /** A staging buffer that is not whole words refuses every read longer than itself at
      the first piece. */
  lemma OddCapRefuses(offset: nat, bytes: nat, staging: nat, size: nat)
    requires 256 <= staging < bytes && staging % 4 != 0
    ensures !Copyable(PieceAt(offset, bytes, 0, staging), size)
  {
    hide Words;
    PieceWords(offset, bytes, 0, staging);
    WordsAbove(PieceAt(offset, bytes, 0, staging).skew + staging);
  }
}
