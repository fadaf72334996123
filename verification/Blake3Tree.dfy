/** BLAKE3 in hash mode: the tree of section 2.1 of the BLAKE3 specification, over
    any compression function. */
module Blake3Tree {

  type Byte = x: int | 0 <= x < 256
  type Word = x: int | 0 <= x < 0x1_0000_0000

  const BLOCK := 64
  const CHUNK := 1024
  const CHUNK_START := 1
  const CHUNK_END := 2
  const PARENT := 4
  const ROOT := 8

  const IV: seq<Word> := [0x6A09E667, 0xBB67AE85, 0x3C6EF372, 0xA54FF53A, 0x510E527F, 0x9B05688C, 0x1F83D9AB, 0x5BE0CD19]

  /** The compression function: chaining value, message block, counter, length, flags. */
  type Compress = (seq<Word>, seq<Word>, nat, nat, nat) -> seq<Word>

  ghost predicate SixteenWords(f: Compress) {
    forall cv, block, counter, len, flags :: |f(cv, block, counter, len, flags)| == 16
  }

  /** A node's last compression, kept until it is known whether it is the root. */
  datatype Output = Output(cv: seq<Word>, block: seq<Word>, counter: nat, len: nat, flags: nat)

  function Chaining(f: Compress, o: Output): seq<Word>
    requires SixteenWords(f)
  {
    f(o.cv, o.block, o.counter, o.len, o.flags)[..8]
  }

  function RootWords(f: Compress, o: Output): (r: seq<Word>)
    requires SixteenWords(f)
    ensures |r| == 16
  {
    f(o.cv, o.block, o.counter, o.len, o.flags + ROOT)
  }

  function Parent(l: seq<Word>, r: seq<Word>): Output {
    Output(IV, l + r, 0, BLOCK, PARENT)
  }

  function LittleEndian(b0: int, b1: int, b2: int, b3: int): Word
    requires 0 <= b0 < 256 && 0 <= b1 < 256 && 0 <= b2 < 256 && 0 <= b3 < 256
  {
    b0 + 0x100 * b1 + 0x1_0000 * b2 + 0x100_0000 * b3
  }

  /** Sixteen little-endian words of a 64-byte block. */
  function WordsOf(b: seq<Byte>): (w: seq<Word>)
    requires |b| == 64
    ensures |w| == 16
  {
    seq(16, i requires 0 <= i < 16 => LittleEndian(b[4 * i], b[4 * i + 1], b[4 * i + 2], b[4 * i + 3]))
  }

  function Padded(b: seq<Byte>): (r: seq<Byte>)
    requires |b| <= 64
    ensures |r| == 64
  {
    b + seq(64 - |b|, i => 0)
  }

  function StartFlag(first: bool): nat {
    if first then CHUNK_START else 0
  }

  /** A chunk of at most 1024 bytes: its blocks compressed in turn, the last kept. */
  function ChunkFrom(f: Compress, cv: seq<Word>, bytes: seq<Byte>, counter: nat, first: bool): Output
    requires SixteenWords(f)
    decreases |bytes|
  {
    if |bytes| <= BLOCK then Output(cv, WordsOf(Padded(bytes)), counter, |bytes|, StartFlag(first) + CHUNK_END)
    else ChunkFrom(f, f(cv, WordsOf(bytes[..BLOCK]), counter, BLOCK, StartFlag(first))[..8], bytes[BLOCK..], counter, false)
  }

  function Chunks(n: nat): nat {
    (n + CHUNK - 1) / CHUNK
  }

  function Pow2(k: nat): (r: nat)
    ensures r >= 1
  {
    if k == 0 then 1 else 2 * Pow2(k - 1)
  }

  /** The largest power of two below n, searched upwards from p. */
  function LargestBelow(n: nat, p: nat): (r: nat)
    requires 0 < p < n
    ensures 0 < r < n
    decreases n - p
  {
    if 2 * p < n then LargestBelow(n, 2 * p) else p
  }

  /** Bytes of the left subtree: as many whole chunks as the largest power of two
      that leaves at least one chunk to the right. */
  function LeftLen(n: nat): (l: nat)
    requires n > CHUNK
    ensures 0 < l < n && l % CHUNK == 0
  {
    CHUNK * LargestBelow(Chunks(n), 1)
  }

  /** The tree over the bytes of chunks `counter` onwards. */
  function Tree(f: Compress, bytes: seq<Byte>, counter: nat): Output
    requires SixteenWords(f)
    decreases |bytes|
  {
    if |bytes| <= CHUNK then ChunkFrom(f, IV, bytes, counter, true)
    else
      var l := LeftLen(|bytes|);
      Parent(Chaining(f, Tree(f, bytes[..l], counter)), Chaining(f, Tree(f, bytes[l..], counter + l / CHUNK)))
  }

  const HEX := "0123456789abcdef"

  function HexByte(b: Byte): string {
    [HEX[b / 16], HEX[b % 16]]
  }

  /** Byte i of little-endian words. */
  function ByteAt(w: seq<Word>, i: nat): Byte
    requires i < 4 * |w|
  {
    var word := w[i / 4];
    if i % 4 == 0 then word % 0x100
    else if i % 4 == 1 then word / 0x100 % 0x100
    else if i % 4 == 2 then word / 0x1_0000 % 0x100
    else word / 0x100_0000 % 0x100
  }

  function HexDigest(w: seq<Word>, n: nat): string
    requires n <= 4 * |w|
  {
    if n == 0 then "" else HexDigest(w, n - 1) + HexByte(ByteAt(w, n - 1))
  }

  /** The digest: 32 bytes of the root's output, as lowercase hex. */
  function Digest(f: Compress, msg: seq<Byte>): string
    requires SixteenWords(f)
  {
    HexDigest(RootWords(f, Tree(f, msg, 0)), 32)
  }

  // --- the split of a tree ---------------------------------------------------------

  lemma {:induction false} LargestBelowIsPow2(j: nat, i: nat, n: nat)
    requires i <= j && Pow2(j) < n <= 2 * Pow2(j)
    ensures Pow2(i) < n && LargestBelow(n, Pow2(i)) == Pow2(j)
    decreases j - i
  {
    if i < j {
      Pow2Mono(i + 1, j);
      LargestBelowIsPow2(j, i + 1, n);
    }
  }

  lemma {:induction false} Pow2Mono(i: nat, j: nat)
    requires i <= j
    ensures Pow2(i) <= Pow2(j)
    decreases j
  {
    if i < j { Pow2Mono(i, j - 1); }
  }

  /** A run of more than 2^j and at most 2^(j+1) chunks splits after 2^j chunks. */
  lemma TreeSplit(f: Compress, bytes: seq<Byte>, counter: nat, j: nat)
    requires SixteenWords(f) && CHUNK * Pow2(j) < |bytes| <= 2 * (CHUNK * Pow2(j))
    ensures Tree(f, bytes, counter) ==
            Parent(Chaining(f, Tree(f, bytes[..CHUNK * Pow2(j)], counter)),
                   Chaining(f, Tree(f, bytes[CHUNK * Pow2(j)..], counter + Pow2(j))))
  {
    hide Chaining, ChunkFrom, Pow2, LeftLen;
    LeftLenIs(|bytes|, j);
  }

  lemma LeftLenIs(n: nat, j: nat)
    requires CHUNK * Pow2(j) < n <= 2 * (CHUNK * Pow2(j))
    ensures n > CHUNK && LeftLen(n) == CHUNK * Pow2(j) && LeftLen(n) / CHUNK == Pow2(j)
  {
    var p := Pow2(j);
    assert p < Chunks(n) <= 2 * p;
    assert Pow2(0) == 1;
    LargestBelowIsPow2(j, 0, Chunks(n));
  }
}
