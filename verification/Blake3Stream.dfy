/** blake3::Ctx: the streaming hasher. */
module Blake3Stream {

  // Chunks are finished lazily, and a stack of chaining values is merged once per
  // trailing zero bit of the chunk count.

  import opened Blake3Calls
  import opened Blake3Tree

  // --- what the stack holds ----------------------------------------------------------

  /** Chunks s..e-1 of msg. */
  function Span(msg: seq<Byte>, s: nat, e: nat): seq<Byte>
    requires s <= e && CHUNK * e <= |msg|
  {
    msg[CHUNK * s..CHUNK * e]
  }

  /** The chaining value of the 2^j whole chunks from chunk s on. */
  function Perfect(f: Compress, msg: seq<Byte>, s: nat, j: nat): seq<Word>
    requires SixteenWords(f) && CHUNK * (s + Pow2(j)) <= |msg|
  {
    Chaining(f, Tree(f, Span(msg, s, s + Pow2(j)), s))
  }

  /** Where n runs of 2^j chunks end. */
  function End(n: nat, j: nat): nat {
    n * Pow2(j)
  }

  lemma Halve(n: nat, j: nat)
    ensures n % 2 == 0 ==> End(n / 2, j + 1) == End(n, j)
    ensures n % 2 == 1 ==> End(n / 2, j + 1) == End(n - 1, j) && End(n, j) == End(n - 1, j) + Pow2(j)
  {
    var h := n / 2;
    assert h * (2 * Pow2(j)) == (2 * h) * Pow2(j);
    if n % 2 == 1 {
      assert n == 2 * h + 1;
      assert (2 * h + 1) * Pow2(j) == (2 * h) * Pow2(j) + Pow2(j);
    }
  }

  /** One perfect subtree per set bit of n, largest first, for n runs of 2^j chunks. */
  function Stack(f: Compress, msg: seq<Byte>, n: nat, j: nat): seq<seq<Word>>
    requires SixteenWords(f) && CHUNK * End(n, j) <= |msg|
    decreases n
  {
    if n == 0 then []
    else
      Halve(n, j);
      if n % 2 == 1 then Stack(f, msg, n / 2, j + 1) + [Perfect(f, msg, End(n - 1, j), j)]
      else Stack(f, msg, n / 2, j + 1)
  }

  /** Merging the stack into the last node, top first. */
  function Fold(f: Compress, stack: seq<seq<Word>>, o: Output): Output
    requires SixteenWords(f)
  {
    if stack == [] then o
    else Fold(f, stack[..|stack| - 1], Parent(stack[|stack| - 1], Chaining(f, o)))
  }

  /** Two neighbouring runs of chunks, the left one of 2^j and the right no longer,
      are the children of one node. */
  lemma MergeRuns(f: Compress, msg: seq<Byte>, s: nat, j: nat, e: nat)
    requires SixteenWords(f) && CHUNK * (s + Pow2(j)) < e <= CHUNK * (s + 2 * Pow2(j)) && e <= |msg|
    ensures Tree(f, msg[CHUNK * s..e], s) ==
            Parent(Perfect(f, msg, s, j), Chaining(f, Tree(f, msg[CHUNK * (s + Pow2(j))..e], s + Pow2(j))))
  {
    hide Tree, Chaining;
    var bytes := msg[CHUNK * s..e];
    TreeSplit(f, bytes, s, j);
    assert bytes[..CHUNK * Pow2(j)] == Span(msg, s, s + Pow2(j));
    assert bytes[CHUNK * Pow2(j)..] == msg[CHUNK * (s + Pow2(j))..e];
  }

  /** Merging the stack of whole runs into the tree of what follows them gives the
      tree of the whole message. */
  lemma {:induction false} FoldIsTree(f: Compress, msg: seq<Byte>, n: nat, j: nat)
    requires SixteenWords(f)
    requires CHUNK * End(n, j) <= |msg| <= CHUNK * (End(n, j) + Pow2(j))
    requires n > 0 ==> CHUNK * End(n, j) < |msg|
    ensures Fold(f, Stack(f, msg, n, j), Tree(f, msg[CHUNK * End(n, j)..], End(n, j))) == Tree(f, msg, 0)
    decreases n
  {
    hide Tree, Chaining;
    Halve(n, j);
    if n == 0 {
      assert msg[0..] == msg;
    } else {
      FoldIsTree(f, msg, n / 2, j + 1);
      if n % 2 == 1 {
        MergeRuns(f, msg, End(n - 1, j), j, |msg|);
        var below, top := Stack(f, msg, n / 2, j + 1), Perfect(f, msg, End(n - 1, j), j);
        assert (below + [top])[..|below|] == below;
        assert msg[CHUNK * End(n - 1, j)..|msg|] == msg[CHUNK * End(n - 1, j)..];
        assert msg[CHUNK * End(n, j)..|msg|] == msg[CHUNK * End(n, j)..];
      }
    }
  }

  /** The stack depends only on the chunks it covers. */
  lemma {:induction false} StackExtends(f: Compress, msg: seq<Byte>, more: seq<Byte>, n: nat, j: nat)
    requires SixteenWords(f) && CHUNK * End(n, j) <= |msg|
    ensures Stack(f, msg + more, n, j) == Stack(f, msg, n, j)
    decreases n
  {
    hide Tree, Chaining;
    if n != 0 {
      Halve(n, j);
      StackExtends(f, msg, more, n / 2, j + 1);
      if n % 2 == 1 {
        assert Span(msg + more, End(n - 1, j), End(n, j)) == Span(msg, End(n - 1, j), End(n, j));
      }
    }
  }

  lemma {:induction false} StackDepth(f: Compress, msg: seq<Byte>, n: nat, j: nat, bits: nat)
    requires SixteenWords(f) && CHUNK * End(n, j) <= |msg| && n < Pow2(bits)
    ensures |Stack(f, msg, n, j)| <= bits
    decreases n
  {
    hide Tree, Chaining, Perfect;
    if n != 0 {
      Halve(n, j);
      StackDepth(f, msg, n / 2, j + 1, bits - 1);
    }
  }

  function SetBits(n: nat): nat {
    if n == 0 then 0 else n % 2 + SetBits(n / 2)
  }

  /** One entry per set bit of the chunk count. */
  lemma {:induction false} StackIsSetBits(f: Compress, msg: seq<Byte>, n: nat, j: nat)
    requires SixteenWords(f) && CHUNK * End(n, j) <= |msg|
    ensures |Stack(f, msg, n, j)| == SetBits(n)
    decreases n
  {
    hide Tree, Chaining, Perfect;
    if n != 0 {
      Halve(n, j);
      StackIsSetBits(f, msg, n / 2, j + 1);
    }
  }

  /** Pushing a run onto an even count of runs. */
  lemma PushRun(f: Compress, msg: seq<Byte>, n: nat, j: nat)
    requires SixteenWords(f) && n % 2 == 0 && CHUNK * End(n + 1, j) <= |msg|
    ensures CHUNK * End(n, j) <= |msg| && End(n + 1, j) == End(n, j) + Pow2(j)
    ensures Stack(f, msg, n + 1, j) == Stack(f, msg, n, j) + [Perfect(f, msg, End(n, j), j)]
  {
    hide Tree, Chaining, Perfect;
    Halve(n + 1, j);
    Halve(n, j);
  }

  /** Carrying: an odd count of runs ends in a run that merges with the next. */
  lemma CarryRun(f: Compress, msg: seq<Byte>, n: nat, j: nat)
    requires SixteenWords(f) && n % 2 == 1 && CHUNK * End(n + 1, j) <= |msg|
    ensures CHUNK * End(n, j) <= |msg| && End(n + 1, j) == End(n, j) + Pow2(j)
    ensures End(n / 2, j + 1) == End(n - 1, j) && End(n / 2 + 1, j + 1) == End(n + 1, j)
    ensures CHUNK * (End(n, j) + Pow2(j)) <= |msg| && CHUNK * (End(n - 1, j) + Pow2(j)) <= |msg|
    ensures Stack(f, msg, n, j) == Stack(f, msg, n / 2, j + 1) + [Perfect(f, msg, End(n - 1, j), j)]
    ensures CHUNK * (End(n - 1, j) + Pow2(j + 1)) <= |msg|
    ensures Perfect(f, msg, End(n - 1, j), j + 1) ==
            Chaining(f, Parent(Perfect(f, msg, End(n - 1, j), j), Perfect(f, msg, End(n, j), j)))
    ensures Stack(f, msg, n + 1, j) == Stack(f, msg, n / 2 + 1, j + 1)
  {
    hide Tree, Chaining;
    Halve(n, j);
    Halve(n + 1, j);
    assert (n + 1) * Pow2(j) == n * Pow2(j) + Pow2(j);
    var s := End(n - 1, j);
    MergeRuns(f, msg, s, j, CHUNK * (s + 2 * Pow2(j)));
    assert Span(msg, s, s + Pow2(j + 1)) == msg[CHUNK * s..CHUNK * (s + 2 * Pow2(j))];
    assert Span(msg, s + Pow2(j), s + Pow2(j) + Pow2(j)) == msg[CHUNK * (s + Pow2(j))..CHUNK * (s + 2 * Pow2(j))];
  }

  // --- the chunk being filled ----------------------------------------------------------

  /** The chaining value after the first n blocks of a chunk. */
  function AfterBlocks(f: Compress, chunk: seq<Byte>, counter: nat, n: nat): seq<Word>
    requires SixteenWords(f) && BLOCK * n <= |chunk|
  {
    if n == 0 then IV
    else f(AfterBlocks(f, chunk, counter, n - 1), WordsOf(chunk[BLOCK * (n - 1)..BLOCK * n]), counter, BLOCK, StartFlag(n == 1))[..8]
  }

  lemma {:induction false} AfterBlocksExtends(f: Compress, chunk: seq<Byte>, more: seq<Byte>, counter: nat, n: nat)
    requires SixteenWords(f) && BLOCK * n <= |chunk|
    ensures AfterBlocks(f, chunk + more, counter, n) == AfterBlocks(f, chunk, counter, n)
  {
    hide WordsOf;
    if n != 0 {
      AfterBlocksExtends(f, chunk, more, counter, n - 1);
      assert (chunk + more)[BLOCK * (n - 1)..BLOCK * n] == chunk[BLOCK * (n - 1)..BLOCK * n];
    }
  }

  /** Going on from the n-th block of a chunk finishes the chunk. */
  lemma {:induction false} ChunkFromBlock(f: Compress, chunk: seq<Byte>, counter: nat, n: nat)
    requires SixteenWords(f) && BLOCK * n <= |chunk| && (n > 0 ==> BLOCK * n < |chunk|)
    ensures ChunkFrom(f, AfterBlocks(f, chunk, counter, n), chunk[BLOCK * n..], counter, n == 0) ==
            ChunkFrom(f, IV, chunk, counter, true)
    decreases n
  {
    hide WordsOf;
    if n == 0 {
      assert chunk[0..] == chunk;
    } else {
      ChunkFromBlock(f, chunk, counter, n - 1);
      var rest := chunk[BLOCK * (n - 1)..];
      assert rest[..BLOCK] == chunk[BLOCK * (n - 1)..BLOCK * n];
      assert rest[BLOCK..] == chunk[BLOCK * n..];
    }
  }

  /** A chunk with only its last block left. */
  lemma LastBlock(f: Compress, chunk: seq<Byte>, counter: nat, n: nat)
    requires SixteenWords(f) && BLOCK * n <= |chunk| <= BLOCK * n + BLOCK && (n > 0 ==> BLOCK * n < |chunk|)
    ensures |chunk[BLOCK * n..]| <= BLOCK
    ensures Output(AfterBlocks(f, chunk, counter, n), WordsOf(Padded(chunk[BLOCK * n..])), counter,
                   |chunk| - BLOCK * n, StartFlag(n == 0) + CHUNK_END) == ChunkFrom(f, IV, chunk, counter, true)
  {
    ChunkFromBlock(f, chunk, counter, n);
  }

  /** The longest message the hash is defined for. */
  const MAX_BYTES := 0x1_0000_0000_0000_0000
  const STACK_ENTRIES := 54

  lemma Pow2Of54()
    ensures Pow2(54) == 0x40_0000_0000_0000
  {
    assert Pow2(6) == 64;
    Pow2Adds(6, 6);
    Pow2Adds(12, 12);
    Pow2Adds(24, 24);
    Pow2Adds(48, 6);
  }

  lemma {:induction false} Pow2Adds(a: nat, b: nat)
    ensures Pow2(a + b) == Pow2(a) * Pow2(b)
    decreases b
  {
    if b != 0 {
      Pow2Adds(a, b - 1);
      assert Pow2(a) * (2 * Pow2(b - 1)) == 2 * (Pow2(a) * Pow2(b - 1));
    }
  }

  lemma WholeChunk(f: Compress, msg: seq<Byte>, n: nat)
    requires SixteenWords(f) && CHUNK * (n + 1) <= |msg|
    ensures End(n, 0) == n && End(n + 1, 0) == n + 1 && Pow2(0) == 1
    ensures Perfect(f, msg, n, 0) == Chaining(f, ChunkFrom(f, IV, msg[CHUNK * n..CHUNK * (n + 1)], n, true))
  {
    hide ChunkFrom, Chaining;
  }

  class Ctx {
    const f: Compress
    var cv: seq<Word>
    var chunk: nat
    const buf: array<Byte>
    var bufLen: nat
    var blocks: nat
    const stack: array<seq<Word>>
    var stackLen: nat
    /** Every byte hashed so far. */
    ghost var msg: seq<Byte>

    function ChunkBytes(): nat
      reads this
    {
      blocks * BLOCK + bufLen
    }

    /** The bytes of the chunk being filled. */
    ghost function Current(): seq<Byte>
      requires CHUNK * chunk <= |msg|
      reads this
    {
      msg[CHUNK * chunk..]
    }

    /** The message is the finished chunks, the compressed blocks of this one and
        the buffer. */
    ghost predicate Consistent()
      reads this, buf, stack
    {
      && SixteenWords(f) && buf.Length == BLOCK && stack.Length == STACK_ENTRIES
      && bufLen <= BLOCK && stackLen <= STACK_ENTRIES
      && CHUNK * chunk + BLOCK * blocks + bufLen == |msg| <= MAX_BYTES
      && BLOCK * blocks + bufLen <= CHUNK
      && buf[..bufLen] == Current()[BLOCK * blocks..]
      && cv == AfterBlocks(f, Current(), chunk, blocks)
      && CHUNK * End(chunk, 0) <= |msg|
      && stack[..stackLen] == Stack(f, msg, chunk, 0)
    }

    /** Between calls nothing is finished early: once anything was hashed, the
        buffer is not empty. */
    ghost predicate Valid()
      reads this, buf, stack
    {
      Consistent() && (|msg| > 0 ==> bufLen > 0)
    }

    constructor (compress: Compress)
      requires SixteenWords(compress)
      ensures Valid() && fresh(buf) && fresh(stack) && msg == [] && f == compress
    {
      f, cv, chunk, bufLen, blocks, stackLen, msg := compress, IV, 0, 0, 0, 0, [];
      buf := new Byte[BLOCK](i => 0);
      stack := new seq<Word>[STACK_ENTRIES](i => []);
    }

    /** chunk_output(): the current chunk with its last block kept. */
    method ChunkOutput() returns (o: Output)
      requires Consistent() && (blocks > 0 ==> bufLen > 0)
      ensures o == ChunkFrom(f, IV, Current(), chunk, true)
    {
      hide ChunkFrom, AfterBlocks, Stack, WordsOf;
      o := Output(cv, WordsOf(Padded(buf[..bufLen])), chunk, bufLen, StartFlag(blocks == 0) + CHUNK_END);
      LastBlock(f, Current(), chunk, blocks);
    }

    /** Merges completed subtrees, one per trailing zero bit of the total. */
    method PushChunk(last: seq<Word>, total: nat)
      requires SixteenWords(f) && stack.Length == STACK_ENTRIES && stackLen <= STACK_ENTRIES
      requires 0 < total < Pow2(STACK_ENTRIES) && CHUNK * End(total, 0) <= |msg| && CHUNK * End(total - 1, 0) <= |msg|
      requires CHUNK * (End(total - 1, 0) + Pow2(0)) <= |msg| && last == Perfect(f, msg, End(total - 1, 0), 0)
      requires stack[..stackLen] == Stack(f, msg, total - 1, 0)
      modifies `stackLen, stack
      ensures stackLen <= STACK_ENTRIES && stack[..stackLen] == Stack(f, msg, total, 0)
    {
      hide Perfect, Pow2, Stack, End, Chaining;
      var t, c := total, last;
      ghost var j := 0;
      while t % 2 == 0
        invariant t > 0 && CHUNK * End(t, j) <= |msg| && CHUNK * End(t - 1, j) <= |msg|
        invariant Stack(f, msg, t, j) == Stack(f, msg, total, 0)
        invariant CHUNK * (End(t - 1, j) + Pow2(j)) <= |msg| && c == Perfect(f, msg, End(t - 1, j), j)
        invariant stackLen <= STACK_ENTRIES && stack[..stackLen] == Stack(f, msg, t - 1, j)
        decreases t
      {
        CarryRun(f, msg, t - 1, j);
        ghost var below := stack[..stackLen - 1];
        stackLen := stackLen - 1;
        c := Chaining(f, Parent(stack[stackLen], c));
        t := t / 2;
        j := j + 1;
        assert stack[..stackLen] == below;
      }
      PushRun(f, msg, t - 1, j);
      StackDepth(f, msg, total, 0, STACK_ENTRIES);
      stack[stackLen] := c;
      stackLen := stackLen + 1;
    }

    /** A full chunk, finished because more input shows it is not the last. */
    method FinishChunk()
      requires Valid() && ChunkBytes() == CHUNK && |msg| < MAX_BYTES
      modifies `cv, `chunk, `bufLen, `blocks, `stackLen, stack
      ensures Consistent() && blocks == 0 && bufLen == 0
    {
      hide ChunkFrom, WordsOf, Tree, Perfect, Chaining, Stack, End, Pow2;
      var o := ChunkOutput();
      var c := Chaining(f, o);
      WholeChunk(f, msg, chunk);
      assert Current() == msg[CHUNK * chunk..CHUNK * (chunk + 1)];
      Pow2Of54();
      chunk := chunk + 1;
      PushChunk(c, chunk);
      cv := IV;
      blocks := 0;
      bufLen := 0;
      assert Current() == [];
    }

    /** A full block of a chunk that goes on. */
    method CompressBlock()
      requires Consistent() && bufLen == BLOCK && ChunkBytes() < CHUNK
      modifies `cv, `bufLen, `blocks
      ensures Consistent() && bufLen == 0 && ChunkBytes() == old(ChunkBytes())
    {
      hide ChunkFrom, WordsOf, Stack;
      assert buf[..] == buf[..bufLen];
      cv := f(cv, WordsOf(buf[..]), chunk, BLOCK, StartFlag(blocks == 0))[..8];
      assert Current()[BLOCK * blocks..BLOCK * (blocks + 1)] == buf[..];
      blocks := blocks + 1;
      bufLen := 0;
    }

    /** memcpy of the next bytes into the buffer. */
    method Fill(bytes: seq<Byte>)
      requires Consistent() && 0 < |bytes| <= BLOCK - bufLen && ChunkBytes() + |bytes| <= CHUNK
      requires |msg| + |bytes| <= MAX_BYTES
      modifies `bufLen, `msg, buf
      ensures Valid() && msg == old(msg) + bytes
    {
      hide ChunkFrom, WordsOf, Stack, AfterBlocks;
      ghost var was, cur := buf[..bufLen], Current();
      forall i | 0 <= i < |bytes| {
        buf[bufLen + i] := bytes[i];
      }
      AfterBlocksExtends(f, cur, bytes, chunk, blocks);
      StackExtends(f, msg, bytes, chunk, 0);
      bufLen := bufLen + |bytes|;
      msg := msg + bytes;
      assert Current() == cur + bytes;
      assert buf[..bufLen] == was + bytes;
    }

    /** Hashes data after everything hashed before, whatever the cut into calls. */
    method Update(data: seq<Byte>)
      requires Valid() && |msg| + |data| <= MAX_BYTES
      modifies this, buf, stack
      ensures Valid() && msg == old(msg) + data
    {
      hide Consistent;
      var p := 0;
      assert data[..0] == [];
      while p < |data|
        invariant 0 <= p <= |data| && Valid() && msg == old(msg) + data[..p]
      {
        BufferFits();
        if ChunkBytes() == CHUNK {
          FinishChunk();
        }
        BufferFits();
        if bufLen == BLOCK {
          CompressBlock();
        }
        BufferFits();
        var want := CHUNK - ChunkBytes();
        var room := BLOCK - bufLen;
        var take := if |data| - p < room then |data| - p else room;
        if take > want {
          take := want;
        }
        Fill(data[p..p + take]);
        assert data[..p] + data[p..p + take] == data[..p + take];
        p := p + take;
      }
      assert data[..p] == data;
    }

    lemma BufferFits()
      requires Consistent()
      ensures bufLen <= BLOCK && ChunkBytes() <= CHUNK && |msg| <= MAX_BYTES
      ensures ChunkBytes() == CHUNK ==> bufLen == 0 || bufLen == BLOCK
    {
    }

    /** The stack folded into the current chunk, top first: the root. */
    method Root() returns (o: Output)
      requires Valid()
      ensures o == Tree(f, msg, 0)
    {
      hide ChunkFrom, WordsOf, Stack, AfterBlocks, Chaining;
      o := ChunkOutput();
      assert End(chunk, 0) == chunk && Pow2(0) == 1;
      assert o == Tree(f, Current(), chunk);
      FoldIsTree(f, msg, chunk, 0);
      var i := stackLen;
      assert stack[..i] == Stack(f, msg, chunk, 0);
      while i > 0
        invariant 0 <= i <= stackLen
        invariant Fold(f, stack[..i], o) == Tree(f, msg, 0)
      {
        i := i - 1;
        assert stack[..i + 1][..i] == stack[..i];
        o := Parent(stack[i], Chaining(f, o));
      }
    }

    /** The digest of everything hashed so far: 64 lowercase digits, which spell the first
        eight words of the root's compression with ROOT, over a tree of calls that hashes
        the message. */
    method Hex() returns (s: string)
      requires Valid()
      ensures s == Digest(f, msg)
      ensures |s| == 64 && forall k :: 0 <= k < 64 ==> 0 <= Digit(s[k]) < 16
      ensures exists w :: DigestWords(f, msg, w) && Spells(s, w)
    {
      hide Tree, RootWords, HexByte, ByteAt, DigestWords;
      DigestIs(f, msg);
      var o := Root();
      var out := RootWords(f, o);
      s := "";
      for k := 0 to 32
        invariant s == HexDigest(out, k)
      {
        s := s + HexByte(ByteAt(out, k));
      }
    }
  }

  /** blake3::hex: one-shot hashing. */
  method Hex(f: Compress, data: seq<Byte>) returns (s: string)
    requires SixteenWords(f) && |data| <= MAX_BYTES
    ensures s == Digest(f, data)
    ensures exists w :: DigestWords(f, data, w) && Spells(s, w)
  {
    hide Ctx.Consistent, Digest;
    var c := new Ctx(f);
    assert [] + data == data;
    c.Update(data);
    s := c.Hex();
  }
}
