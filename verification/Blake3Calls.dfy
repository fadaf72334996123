/** What a BLAKE3 digest is, call by call. */
module Blake3Calls {

  // A second account of the hash, as the compressions it is made of: the blocks of every
  // chunk chained in turn, the chunks under a tree of parents, and the root compressed once
  // more with ROOT for the digest.  `Blake3Tree` is proved to be such a tree of calls.

  import opened Blake3Tree

  /** The eight words a compression passes on. */
  function Result(f: Compress, c: Output): seq<Word>
    requires SixteenWords(f)
  {
    f(c.cv, c.block, c.counter, c.len, c.flags)[..8]
  }

  function ByteOr0(bytes: seq<Byte>, k: nat): int {
    if k < |bytes| then bytes[k] else 0
  }

  /** Call i of a chunk: block i of its bytes, filled up with zeros, in little-endian words. */
  predicate BlockCall(f: Compress, calls: seq<Output>, cv: seq<Word>, bytes: seq<Byte>, counter: nat, first: bool, i: nat)
    requires SixteenWords(f) && i < |calls|
  {
    var c, last := calls[i], i == |calls| - 1;
    && c.cv == (if i == 0 then cv else Result(f, calls[i - 1]))
    && c.counter == counter
    && c.len == (if last then |bytes| - 64 * i else 64)
    && c.flags == (if i == 0 && first then 1 else 0) + (if last then 2 else 0)
    && |c.block| == 16
    && forall j :: 0 <= j < 16 ==> BlockWord(c.block[j], bytes, 64 * i + 4 * j)
  }

  predicate BlockWord(w: Word, bytes: seq<Byte>, k: nat) {
    w == ByteOr0(bytes, k) + 256 * ByteOr0(bytes, k + 1) + 65536 * ByteOr0(bytes, k + 2) + 16777216 * ByteOr0(bytes, k + 3)
  }

  /** The compressions of one chunk: a block of 64 bytes each, the last of what is left. */
  predicate ChunkCalls(f: Compress, calls: seq<Output>, cv: seq<Word>, bytes: seq<Byte>, counter: nat, first: bool)
    requires SixteenWords(f)
  {
    && |calls| > 0 && 64 * (|calls| - 1) <= |bytes| <= 64 * |calls| && (|calls| > 1 ==> 64 * (|calls| - 1) < |bytes|)
    && forall i :: 0 <= i < |calls| ==> BlockCall(f, calls, cv, bytes, counter, first, i)
  }

  datatype Node =
    | Leaf(counter: nat, bytes: seq<Byte>, calls: seq<Output>)
    | Inner(split: nat, call: Output, left: Node, right: Node)

  /** The compression a node ends with. */
  function LastCall(t: Node): Output {
    match t
    case Leaf(_, _, calls) => if calls == [] then Output([], [], 0, 0, 0) else calls[|calls| - 1]
    case Inner(_, call, _, _) => call
  }

  ghost predicate IsPow2(p: nat) {
    exists j: nat :: p == Pow2(j)
  }

  /** t hashes bytes, whose first chunk has number `counter`: one chunk, or a full left
      subtree of the most chunks that leave some to the right, and a parent over the
      results of both, the left one's words first. */
  ghost predicate Hashes(f: Compress, t: Node, bytes: seq<Byte>, counter: nat)
    requires SixteenWords(f)
  {
    match t
    case Leaf(n, chunk, calls) => |bytes| <= 1024 && n == counter && chunk == bytes && ChunkCalls(f, calls, IV, bytes, counter, true)
    case Inner(split, call, left, right) =>
      && IsPow2(split) && 1024 * split < |bytes| <= 2048 * split
      && call.cv == IV && call.counter == 0 && call.len == 64 && call.flags == 4
      && |call.block| == 16 && call.block[..8] == Result(f, LastCall(left)) && call.block[8..] == Result(f, LastCall(right))
      && Hashes(f, left, bytes[..1024 * split], counter)
      && Hashes(f, right, bytes[1024 * split..], counter + split)
  }

  /** The digest's words: the root's compression again, with ROOT. */
  ghost predicate DigestWords(f: Compress, msg: seq<Byte>, w: seq<Word>)
    requires SixteenWords(f)
  {
    exists t: Node :: Hashes(f, t, msg, 0) && RootCall(f, LastCall(t), w)
  }

  predicate RootCall(f: Compress, c: Output, w: seq<Word>) {
    w == f(c.cv, c.block, c.counter, c.len, c.flags + 8)
  }

  // --- the leaves, in order ----------------------------------------------------------

  function Leaves(t: Node): (ls: seq<Node>)
    ensures forall l :: l in ls ==> l.Leaf?
  {
    match t
    case Leaf(_, _, _) => [t]
    case Inner(_, _, left, right) => Leaves(left) + Leaves(right)
  }

  predicate ChunkAt(leaf: Node, bytes: seq<Byte>, counter: nat, i: nat) {
    && leaf.Leaf? && leaf.counter == counter + i
    && 1024 * i <= |bytes| && leaf.bytes == bytes[1024 * i..if 1024 * i + 1024 <= |bytes| then 1024 * i + 1024 else |bytes|]
  }

  /** The chunks of n bytes; no bytes are one chunk. */
  function ChunkCount(n: nat): nat {
    if n == 0 then 1 else (n + 1023) / 1024
  }

  lemma CountSplits(n: nat, p: nat)
    requires p > 0 && 1024 * p < n
    ensures ChunkCount(1024 * p) == p && ChunkCount(n) == p + ChunkCount(n - 1024 * p)
  {
    assert (1024 * p + 1023) / 1024 == p;
    assert n + 1023 == 1024 * p + (n - 1024 * p + 1023);
  }

  lemma LeftChunk(leaf: Node, bytes: seq<Byte>, counter: nat, p: nat, i: nat)
    requires 1024 * p < |bytes| && i < p && ChunkAt(leaf, bytes[..1024 * p], counter, i)
    ensures ChunkAt(leaf, bytes, counter, i)
  {
    assert 1024 * i + 1024 <= 1024 * p;
  }

  lemma RightChunk(leaf: Node, bytes: seq<Byte>, counter: nat, p: nat, i: nat)
    requires 1024 * p < |bytes| && ChunkAt(leaf, bytes[1024 * p..], counter + p, i)
    ensures ChunkAt(leaf, bytes, counter, p + i)
  {
    var b := bytes[1024 * p..];
    var e := if 1024 * i + 1024 <= |b| then 1024 * i + 1024 else |b|;
    assert b[1024 * i..e] == bytes[1024 * (p + i)..1024 * p + e];
  }

  lemma InnerParts(f: Compress, t: Node, bytes: seq<Byte>, counter: nat)
    requires SixteenWords(f) && t.Inner? && Hashes(f, t, bytes, counter)
    ensures t.split > 0 && 1024 * t.split < |bytes|
    ensures Hashes(f, t.left, bytes[..1024 * t.split], counter) && Hashes(f, t.right, bytes[1024 * t.split..], counter + t.split)
  {
    hide ChunkCalls, Result;
  }

  lemma OnlyChunk(f: Compress, t: Node, bytes: seq<Byte>, counter: nat)
    requires SixteenWords(f) && t.Leaf? && Hashes(f, t, bytes, counter)
    ensures ChunkCount(|bytes|) == 1 && ChunkAt(t, bytes, counter, 0)
  {
    hide ChunkCalls, Result;
    assert bytes[0..|bytes|] == bytes;
  }

  /** The leaves are the chunks, in order, each with its number. */
  lemma {:induction false} LeavesAreChunks(f: Compress, t: Node, bytes: seq<Byte>, counter: nat)
    requires SixteenWords(f) && Hashes(f, t, bytes, counter)
    ensures |Leaves(t)| == ChunkCount(|bytes|)
    ensures forall i :: 0 <= i < |Leaves(t)| ==> ChunkAt(Leaves(t)[i], bytes, counter, i)
    decreases t
  {
    hide Hashes, ChunkAt, ChunkCount;
    if t.Leaf? {
      OnlyChunk(f, t, bytes, counter);
    } else {
      InnerParts(f, t, bytes, counter);
      var p := t.split;
      CountSplits(|bytes|, p);
      var a, b := bytes[..1024 * p], bytes[1024 * p..];
      LeavesAreChunks(f, t.left, a, counter);
      LeavesAreChunks(f, t.right, b, counter + p);
      forall i | 0 <= i < |Leaves(t)| ensures ChunkAt(Leaves(t)[i], bytes, counter, i) {
        if i < p {
          LeftChunk(Leaves(t)[i], bytes, counter, p, i);
        } else {
          assert Leaves(t)[i] == Leaves(t.right)[i - p];
          RightChunk(Leaves(t)[i], bytes, counter, p, i - p);
        }
      }
    }
  }

  /** Every compression of a tree, the root's last. */
  function Calls(t: Node): seq<Output> {
    match t
    case Leaf(_, _, calls) => calls
    case Inner(_, call, left, right) => Calls(left) + Calls(right) + [call]
  }

  /** No compression of the tree, those of its chunks included, carries ROOT. */
  lemma {:induction false} NoneIsRoot(f: Compress, t: Node, bytes: seq<Byte>, counter: nat)
    requires SixteenWords(f) && Hashes(f, t, bytes, counter)
    ensures forall c :: c in Calls(t) ==> c.flags < 8
    ensures forall l, c :: l in Leaves(t) && c in l.calls ==> c in Calls(t)
    ensures |Calls(t)| > 0 && Calls(t)[|Calls(t)| - 1] == LastCall(t)
    decreases t
  {
    if t.Inner? {
      NoneIsRoot(f, t.left, bytes[..1024 * t.split], counter);
      NoneIsRoot(f, t.right, bytes[1024 * t.split..], counter + t.split);
    } else {
      forall c | c in t.calls ensures c.flags < 8 {
        var i :| 0 <= i < |t.calls| && t.calls[i] == c;
        assert BlockCall(f, t.calls, IV, bytes, counter, true, i);
      }
    }
  }

  // --- the tree function makes these calls ---------------------------------------------

  function CallsFrom(f: Compress, cv: seq<Word>, bytes: seq<Byte>, counter: nat, first: bool): (calls: seq<Output>)
    requires SixteenWords(f)
    ensures |calls| > 0
    decreases |bytes|
  {
    if |bytes| <= BLOCK then [ChunkFrom(f, cv, bytes, counter, first)]
    else
      var c := Output(cv, WordsOf(bytes[..BLOCK]), counter, BLOCK, StartFlag(first));
      [c] + CallsFrom(f, Chaining(f, c), bytes[BLOCK..], counter, false)
  }

  lemma {:induction false} CallsEnd(f: Compress, cv: seq<Word>, bytes: seq<Byte>, counter: nat, first: bool)
    requires SixteenWords(f)
    ensures var calls := CallsFrom(f, cv, bytes, counter, first);
            calls[|calls| - 1] == ChunkFrom(f, cv, bytes, counter, first)
    decreases |bytes|
  {
    hide WordsOf;
    if |bytes| > BLOCK {
      var c := Output(cv, WordsOf(bytes[..BLOCK]), counter, BLOCK, StartFlag(first));
      CallsEnd(f, Chaining(f, c), bytes[BLOCK..], counter, false);
    }
  }

  lemma WordsAreBytes(block: seq<Byte>, bytes: seq<Byte>)
    requires |block| <= 64 && block <= bytes && (|block| < 64 ==> block == bytes)
    ensures forall j :: 0 <= j < 16 ==> BlockWord(WordsOf(Padded(block))[j], bytes, 4 * j)
  {
    forall l: nat | l < 64 ensures Padded(block)[l] == ByteOr0(bytes, l) {
      if l < |block| { assert block[l] == bytes[l]; }
    }
  }

  lemma FirstCall(f: Compress, cv: seq<Word>, bytes: seq<Byte>, counter: nat, first: bool)
    requires SixteenWords(f)
    ensures BlockCall(f, CallsFrom(f, cv, bytes, counter, first), cv, bytes, counter, first, 0)
  {
    var block := if |bytes| <= BLOCK then bytes else bytes[..BLOCK];
    assert |bytes| > BLOCK ==> Padded(block) == block;
    WordsAreBytes(block, bytes);
    hide WordsOf, Padded, BlockWord;
  }

  lemma ShiftCall(f: Compress, calls: seq<Output>, rest: seq<Output>, cv: seq<Word>, cv': seq<Word>, bytes: seq<Byte>, counter: nat,
                  first: bool, i: nat)
    requires SixteenWords(f) && |bytes| > BLOCK && i < |rest| && |calls| == |rest| + 1 && calls[1..] == rest
    requires cv' == Result(f, calls[0]) && BlockCall(f, rest, cv', bytes[BLOCK..], counter, false, i)
    ensures BlockCall(f, calls, cv, bytes, counter, first, i + 1)
  {
    assert calls[i + 1] == rest[i] && (i > 0 ==> calls[i] == rest[i - 1]);
    var c := rest[i];
    forall j | 0 <= j < 16 ensures BlockWord(c.block[j], bytes, 64 * (i + 1) + 4 * j) {
      assert BlockWord(c.block[j], bytes[BLOCK..], 64 * i + 4 * j);
    }
  }

  lemma {:induction false} CallsAreChunk(f: Compress, cv: seq<Word>, bytes: seq<Byte>, counter: nat, first: bool)
    requires SixteenWords(f)
    ensures ChunkCalls(f, CallsFrom(f, cv, bytes, counter, first), cv, bytes, counter, first)
    decreases |bytes|
  {
    hide WordsOf, Padded, BlockWord, BlockCall;
    var calls := CallsFrom(f, cv, bytes, counter, first);
    FirstCall(f, cv, bytes, counter, first);
    if |bytes| > BLOCK {
      var cv' := Result(f, calls[0]);
      CallsAreChunk(f, cv', bytes[BLOCK..], counter, false);
      var rest := CallsFrom(f, cv', bytes[BLOCK..], counter, false);
      assert calls[1..] == rest;
      forall i | 0 <= i < |calls| ensures BlockCall(f, calls, cv, bytes, counter, first, i) {
        if i > 0 { ShiftCall(f, calls, rest, cv, cv', bytes, counter, first, i - 1); }
      }
    }
  }

  lemma {:induction false} LargestIsPow2(n: nat, p: nat)
    requires 0 < p < n && IsPow2(p)
    ensures IsPow2(LargestBelow(n, p)) && n <= 2 * LargestBelow(n, p)
    decreases n - p
  {
    if 2 * p < n {
      var j: nat :| p == Pow2(j);
      assert 2 * p == Pow2(j + 1);
      LargestIsPow2(n, 2 * p);
    }
  }

  lemma SplitIsPow2(n: nat) returns (p: nat)
    requires n > CHUNK
    ensures LeftLen(n) == 1024 * p && IsPow2(p) && 1024 * p < n <= 2048 * p
  {
    assert IsPow2(1) by { assert 1 == Pow2(0); }
    LargestIsPow2(Chunks(n), 1);
    p := LargestBelow(Chunks(n), 1);
  }

  /** The tree of section 2.1 is a tree of these calls. */
  lemma {:induction false} TreeHashes(f: Compress, bytes: seq<Byte>, counter: nat) returns (t: Node)
    requires SixteenWords(f)
    ensures Hashes(f, t, bytes, counter) && LastCall(t) == Tree(f, bytes, counter)
    decreases |bytes|
  {
    if |bytes| <= CHUNK {
      CallsAreChunk(f, IV, bytes, counter, true);
      CallsEnd(f, IV, bytes, counter, true);
      t := Leaf(counter, bytes, CallsFrom(f, IV, bytes, counter, true));
    } else {
      hide IsPow2, ChunkCalls, Tree, Result;
      var p := SplitIsPow2(|bytes|);
      var left := TreeHashes(f, bytes[..1024 * p], counter);
      var right := TreeHashes(f, bytes[1024 * p..], counter + p);
      t := Inner(p, Tree(f, bytes, counter), left, right);
      ParentCall(f, bytes, counter, p);
    }
  }

  lemma ParentCall(f: Compress, bytes: seq<Byte>, counter: nat, p: nat)
    requires SixteenWords(f) && |bytes| > CHUNK && LeftLen(|bytes|) == 1024 * p
    ensures var o := Tree(f, bytes, counter);
            && o.cv == IV && o.counter == 0 && o.len == 64 && o.flags == 4 && |o.block| == 16
            && o.block[..8] == Result(f, Tree(f, bytes[..1024 * p], counter))
            && o.block[8..] == Result(f, Tree(f, bytes[1024 * p..], counter + p))
  {
    hide ChunkFrom;
  }

  // --- the digits ------------------------------------------------------------------------

  /** The value of a lowercase hexadecimal digit. */
  function Digit(c: char): int {
    if '0' <= c <= '9' then c as int - '0' as int
    else if 'a' <= c <= 'f' then c as int - 'a' as int + 10
    else -1
  }

  /** The byte a pair of digits spells, and the word four pairs spell, low byte first. */
  function PairAt(s: string, k: nat): int
    requires k + 2 <= |s|
  {
    16 * Digit(s[k]) + Digit(s[k + 1])
  }

  function WordAt(s: string, k: nat): int
    requires k + 8 <= |s|
  {
    PairAt(s, k) + 256 * PairAt(s, k + 2) + 65536 * PairAt(s, k + 4) + 16777216 * PairAt(s, k + 6)
  }

  /** s is the first 32 bytes of w: 64 hexadecimal digits. */
  predicate Spells(s: string, w: seq<Word>) {
    && |s| == 64 && |w| >= 8
    && (forall k :: 0 <= k < 64 ==> 0 <= Digit(s[k]) < 16)
    && forall i :: 0 <= i < 8 ==> WordAt(s, 8 * i) == w[i]
  }

  lemma ByteSpelled(b: Byte)
    ensures var h := HexByte(b);
            |h| == 2 && 0 <= Digit(h[0]) < 16 && 0 <= Digit(h[1]) < 16 && 16 * Digit(h[0]) + Digit(h[1]) == b
  {
    DigitOf(b / 16);
    DigitOf(b % 16);
  }

  lemma DigitOf(d: nat)
    requires d < 16
    ensures Digit(HEX[d]) == d
  {
  }

  lemma {:induction false} DigestSpelled(w: seq<Word>, n: nat)
    requires n <= 4 * |w|
    ensures var s := HexDigest(w, n);
            && |s| == 2 * n
            && (forall k :: 0 <= k < 2 * n ==> 0 <= Digit(s[k]) < 16)
            && forall i :: 0 <= i < n ==> PairAt(s, 2 * i) == ByteAt(w, i)
  {
    hide HexByte, ByteAt, Digit;
    if n > 0 {
      DigestSpelled(w, n - 1);
      ByteSpelled(ByteAt(w, n - 1));
    }
  }

  lemma BytesSum(x: Word)
    ensures x % 0x100 + 256 * (x / 0x100 % 0x100) + 65536 * (x / 0x1_0000 % 0x100) + 16777216 * (x / 0x100_0000 % 0x100) == x
  {
    var q1 := x / 0x100;
    var q2 := q1 / 0x100;
    var q3 := q2 / 0x100;
    assert x == 0x100 * q1 + x % 0x100 && q1 == 0x100 * q2 + q1 % 0x100 && q2 == 0x100 * q3 + q2 % 0x100;
    assert x / 0x1_0000 == q2;
    assert x / 0x100_0000 == q3;
    assert q3 % 0x100 == q3;
  }

  lemma BytesOfWord(w: seq<Word>, i: nat)
    requires i < |w|
    ensures ByteAt(w, 4 * i) + 256 * ByteAt(w, 4 * i + 1) + 65536 * ByteAt(w, 4 * i + 2) + 16777216 * ByteAt(w, 4 * i + 3) == w[i]
  {
    BytesSum(w[i]);
    QuarterBytes(w, i);
    hide ByteAt;
  }

  lemma QuarterBytes(w: seq<Word>, i: nat)
    requires i < |w|
    ensures ByteAt(w, 4 * i) == w[i] % 0x100 && ByteAt(w, 4 * i + 1) == w[i] / 0x100 % 0x100
    ensures ByteAt(w, 4 * i + 2) == w[i] / 0x1_0000 % 0x100 && ByteAt(w, 4 * i + 3) == w[i] / 0x100_0000 % 0x100
  {
    assert (4 * i) / 4 == i && (4 * i + 1) / 4 == i && (4 * i + 2) / 4 == i && (4 * i + 3) / 4 == i;
  }

  lemma WordSpelled(w: seq<Word>, s: string, i: nat)
    requires |w| == 16 && |s| == 64 && i < 8
    requires forall b :: 0 <= b < 32 ==> PairAt(s, 2 * b) == ByteAt(w, b)
    ensures WordAt(s, 8 * i) == w[i]
  {
    BytesOfWord(w, i);
    hide ByteAt, PairAt;
    assert PairAt(s, 2 * (4 * i)) == ByteAt(w, 4 * i) && PairAt(s, 2 * (4 * i + 1)) == ByteAt(w, 4 * i + 1);
    assert PairAt(s, 2 * (4 * i + 2)) == ByteAt(w, 4 * i + 2) && PairAt(s, 2 * (4 * i + 3)) == ByteAt(w, 4 * i + 3);
  }

  lemma DigestSpells(w: seq<Word>)
    requires |w| == 16
    ensures Spells(HexDigest(w, 32), w)
  {
    DigestSpelled(w, 32);
    hide HexDigest, ByteAt, Digit, WordAt;
    var s := HexDigest(w, 32);
    forall i | 0 <= i < 8 ensures WordAt(s, 8 * i) == w[i] { WordSpelled(w, s, i); }
  }

  /** The digest is 64 lowercase digits that spell the first eight words of the root's
      compression with ROOT, over a tree of calls that hashes the message. */
  lemma DigestIs(f: Compress, msg: seq<Byte>)
    requires SixteenWords(f)
    ensures exists w :: DigestWords(f, msg, w) && Spells(Digest(f, msg), w)
  {
    var t := TreeHashes(f, msg, 0);
    var w := RootWords(f, Tree(f, msg, 0));
    DigestSpells(w);
    assert RootCall(f, LastCall(t), w);
    assert DigestWords(f, msg, w);
  }
}
