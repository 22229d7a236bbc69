/** Streaming BLAKE2s and HMAC-BLAKE2s (`src/hash.rs`) against section 3.3 of RFC 7693 and
    section 2 of RFC 2104. The round function stays a parameter. */
module Blake2s {
  import opened Base

  const BLOCK: nat := 64

  /** `compress(h, block, t, last)`: the compression function F of section 3.2. */
  type Compress = (seq<bv32>, Bytes, nat, bool) -> seq<bv32>

  ghost predicate EightWords(f: Compress) {
    forall h, b, t, last :: |f(h, b, t, last)| == 8
  }

  const IV: seq<bv32> := [
    0x6A09_E667, 0xBB67_AE85, 0x3C6E_F372, 0xA54F_F53A, 0x510E_527F, 0x9B05_688C, 0x1F83_D9AB, 0x5BE0_CD19]

  /** Exclusive or. */
  function Xor(a: nat, b: nat): nat
    decreases a + b
  {
    if a == 0 && b == 0 then 0 else 2 * Xor(a / 2, b / 2) + if a % 2 == b % 2 then 0 else 1
  }

  lemma {:induction false} XorBelow(a: nat, b: nat, bits: nat)
    requires a < Two(bits) && b < Two(bits)
    ensures Xor(a, b) < Two(bits)
    decreases bits
  {
    if bits > 0 {
      XorBelow(a / 2, b / 2, bits - 1);
    }
  }

  function Two(n: nat): nat {
    if n == 0 then 1 else 2 * Two(n - 1)
  }

  function XorByte(a: byte, b: byte): byte {
    assert Two(8) == 256;
    XorBelow(a, b, 8);
    Xor(a, b)
  }

  lemma {:induction false} XorHalves(a: nat, b: nat)
    ensures Xor(a, b) / 2 == Xor(a / 2, b / 2)
    ensures Xor(a, b) % 2 == if a % 2 == b % 2 then 0 else 1
  {
  }

  /** Flipping by `a` and then by `a ^ b` is flipping by `b`. */
  lemma {:induction false} XorReplace(a: nat, b: nat, k: nat)
    ensures Xor(Xor(a, k), Xor(a, b)) == Xor(b, k)
    decreases a + b + k
  {
    if a + b + k > 0 {
      XorReplace(a / 2, b / 2, k / 2);
      XorHalves(a, k);
      XorHalves(a, b);
      XorHalves(b, k);
      XorHalves(Xor(a, k), Xor(a, b));
    }
  }

  lemma {:induction false} XorZero(a: nat)
    ensures Xor(a, 0) == a
  {
    if a > 0 {
      XorZero(a / 2);
    }
  }

  /** The offset counter is 64 bits wide. */
  function Counter(offset: nat): nat {
    offset % U64_LIMIT
  }

  /** The u64 counter `n` bytes on. */
  function Ahead(t: nat, n: nat): nat {
    Counter(t + n)
  }

  function LittleEndian(w: nat, width: nat): (b: Bytes)
    ensures |b| == width
    decreases width
  {
    if width == 0 then [] else [w % 256] + LittleEndian(w / 256, width - 1)
  }

  function Output(h: seq<bv32>): (out: Bytes)
    ensures |out| == 4 * |h|
  {
    seq(4 * |h|, i requires 0 <= i < 4 * |h| => LittleEndian(h[i / 4] as nat, 4)[i % 4])
  }

  function InitialState(outlen: nat, keylen: nat): (h: seq<bv32>)
    requires outlen <= 32 && keylen <= BLOCK
    ensures |h| == 8
  {
    IV[0 := IV[0] ^ 0x0101_0000 ^ ((keylen as bv32) << 8) ^ (outlen as bv32)]
  }

  /** A word is the first 32 bits after the binary point of a number's square root. */
  predicate IsRootFraction(word: nat, n: nat) {
    exists whole :: 0 <= whole <= n && IsRootIn(whole * U32_LIMIT + word, n * U64_LIMIT) && word < U32_LIMIT
  }

  predicate IsRootIn(r: nat, square: nat) {
    r * r <= square < (r + 1) * (r + 1)
  }

  const PRIMES: seq<nat> := [2, 3, 5, 7, 11, 13, 17, 19]

  /** The initial words come from the first eight primes (section 2.6). */
  lemma {:induction false} IvIsRootsOfPrimes(i: nat)
    requires i < 8
    ensures IsRootFraction(IV[i] as nat, PRIMES[i])
  {
    var whole := if i < 2 then 1 else if i < 4 then 2 else if i < 6 then 3 else 4;
    assert IsRootIn(whole * U32_LIMIT + IV[i] as nat, PRIMES[i] * U64_LIMIT);
  }

  /** The parameters go into the first word: one thread and one level, the length of the key, the
      length of the hash (section 2.5). The other words are the initial ones. */
  lemma {:induction false} ParametersAreFirstWord(outlen: nat, keylen: nat)
    requires outlen <= 32 && keylen <= BLOCK
    ensures var h, k, n := InitialState(outlen, keylen), keylen as bv32, outlen as bv32;
            && (k <= 64 && n <= 32 ==> h[0] == IV[0] ^ (0x0101_0000 + k * 256 + n))
            && forall i :: 0 < i < 8 ==> h[i] == IV[i]
  {
    var k, n := keylen as bv32, outlen as bv32;
    if k <= 64 && n <= 32 {
      ParameterBits(IV[0], k, n);
    }
  }

  /** For instance a plain 32-byte hash, and a 16-byte one under a 32-byte key. */
  lemma {:induction false} FirstWords()
    ensures InitialState(32, 0)[0] == 0x6B08_E647 && InitialState(16, 32)[0] == 0x6B08_C677
  {
  }

  lemma {:induction false} ParameterBits(iv: bv32, k: bv32, n: bv32)
    requires k <= 64 && n <= 32
    ensures iv ^ 0x0101_0000 ^ (k << 8) ^ n == iv ^ (0x0101_0000 + k * 256 + n)
  {
    DisjointBits(k, n);
    assert iv ^ 0x0101_0000 ^ (k << 8) ^ n == iv ^ (0x0101_0000 ^ (k << 8) ^ n);
  }

  lemma {:induction false} DisjointBits(k: bv32, n: bv32)
    requires k <= 64 && n <= 32
    ensures 0x0101_0000 ^ (k << 8) ^ n == 0x0101_0000 + k * 256 + n
  {
  }

  lemma {:induction false} LittleEndianByte(w: nat, width: nat, j: nat)
    requires j < width
    ensures LittleEndian(w, width)[j] == w / Pow256(j) % 256
    decreases width
  {
    if j > 0 {
      LittleEndianByte(w / 256, width - 1, j - 1);
      DivTwice(w, Pow256(j - 1));
    }
  }

  /** The digest is the words one after another, low byte first. */
  lemma {:induction false} OutputByte(h: seq<bv32>, i: nat, j: nat)
    requires i < |h| && j < 4
    ensures Output(h)[4 * i + j] == (h[i] as nat) / Pow256(j) % 256
  {
    assert (4 * i + j) / 4 == i && (4 * i + j) % 4 == j;
    LittleEndianByte(h[i] as nat, 4, j);
  }

  // ---------------------------------------------------------------- RFC 7693, section 3.3

  /** How many zero bytes complete the last block of `n` bytes. */
  function PadLength(n: nat): (p: nat)
    ensures p < BLOCK && (n + p) % BLOCK == 0
  {
    (BLOCK - n % BLOCK) % BLOCK
  }

  /** `x` followed by zeros up to a whole number of blocks; nothing for nothing. */
  function PadBlocks(x: Bytes): (d: Bytes)
    ensures |d| % BLOCK == 0 && |x| <= |d| < |x| + BLOCK
  {
    x + Zeros(PadLength(|x|))
  }

  /** The data blocks d[0..dd-1]: the padded key, if there is one, then the padded message;
      one zero block when there is neither. */
  function DataBlocks(key: Bytes, message: Bytes): (d: Bytes)
    ensures |d| % BLOCK == 0 && |d| >= BLOCK
  {
    var d := PadBlocks(key) + PadBlocks(message);
    if d == [] then Zeros(BLOCK) else d
  }

  /** The chain value after the first `k` blocks, none of them final. */
  function Chain(f: Compress, h: seq<bv32>, d: Bytes, k: nat): seq<bv32>
    requires BLOCK * k <= |d|
  {
    if k == 0 then h
    else f(Chain(f, h, d, k - 1), d[BLOCK * (k - 1)..BLOCK * k], Counter(BLOCK * k), false)
  }

  /** BLAKE2s from an initial chain value, block by block. */
  function ReferenceFrom(f: Compress, h0: seq<bv32>, key: Bytes, message: Bytes): Bytes {
    var d := DataBlocks(key, message);
    var dd := |d| / BLOCK;
    var length := if key == [] then |message| else |message| + BLOCK;
    Output(f(Chain(f, h0, d, dd - 1), d[BLOCK * (dd - 1)..BLOCK * dd], Counter(length), true))
  }

  /** BLAKE2s of a message under an optional key. */
  function Reference(f: Compress, outlen: nat, key: Bytes, message: Bytes): Bytes
    requires outlen <= 32 && |key| <= BLOCK
  {
    ReferenceFrom(f, InitialState(outlen, |key|), key, message)
  }

  // ---------------------------------------------------------------- the streaming state

  /** What the buffer sees of a key: one whole zero-padded block, or nothing. */
  function KeyBlock(key: Bytes): (b: Bytes)
    requires |key| <= BLOCK
    ensures |b| == if key == [] then 0 else BLOCK
  {
    if key == [] then [] else key + Zeros(BLOCK - |key|)
  }

  lemma {:induction false} ChainOfPrefix(f: Compress, h: seq<bv32>, d: Bytes, e: Bytes, k: nat)
    requires BLOCK * k <= |d| && BLOCK * k <= |e|
    requires d[..BLOCK * k] == e[..BLOCK * k]
    ensures Chain(f, h, d, k) == Chain(f, h, e, k)
  {
    if k > 0 {
      var m := BLOCK * k;
      assert d[..m - BLOCK] == d[..m][..m - BLOCK] && e[..m - BLOCK] == e[..m][..m - BLOCK];
      assert d[m - BLOCK..m] == d[..m][m - BLOCK..] && e[m - BLOCK..m] == e[..m][m - BLOCK..];
      ChainOfPrefix(f, h, d, e, k - 1);
    }
  }

  /** Padding the key and the message apart is padding what the buffer absorbs. */
  lemma {:induction false} DataBlocksArePaddedInput(key: Bytes, message: Bytes)
    requires |key| <= BLOCK
    ensures var input := KeyBlock(key) + message;
      DataBlocks(key, message) == if input == [] then Zeros(BLOCK) else input + Zeros(PadLength(|input|))
  {
    var input := KeyBlock(key) + message;
    if key != [] {
      assert PadBlocks(key) == KeyBlock(key);
      assert |input| % BLOCK == |message| % BLOCK;
      assert PadBlocks(key) + PadBlocks(message) == input + Zeros(PadLength(|input|));
    } else {
      assert PadBlocks(key) == [];
      assert input == message;
    }
  }

  /** The chain value, counter and buffered bytes that stand for `input` with `blocks`
      whole blocks of it compressed. */
  ghost predicate Absorbed(f: Compress, h0: seq<bv32>, input: Bytes, blocks: nat, h: seq<bv32>, t: nat, held: Bytes) {
    && |held| <= BLOCK && |input| == BLOCK * blocks + |held|
    && held == input[BLOCK * blocks..]
    && t == Counter(BLOCK * blocks)
    && h == Chain(f, h0, input, blocks)
  }

  lemma {:induction false} AbsorbedFlush(f: Compress, h0: seq<bv32>, input: Bytes, blocks: nat, h: seq<bv32>, t: nat,
                                         held: Bytes)
    requires Absorbed(f, h0, input, blocks, h, t, held) && |held| == BLOCK
    ensures var t' := Ahead(t, BLOCK);
      Absorbed(f, h0, input, blocks + 1, f(h, held, t', false), t', [])
  {
    assert held == input[BLOCK * blocks..BLOCK * (blocks + 1)];
    CounterAdd(BLOCK * blocks, BLOCK);
  }

  lemma {:induction false} AbsorbedMore(f: Compress, h0: seq<bv32>, input: Bytes, blocks: nat, h: seq<bv32>, t: nat,
                                        held: Bytes, part: Bytes)
    requires Absorbed(f, h0, input, blocks, h, t, held) && |held| + |part| <= BLOCK
    ensures Absorbed(f, h0, input + part, blocks, h, t, held + part)
  {
    assert (input + part)[BLOCK * blocks..] == input[BLOCK * blocks..] + part;
    ChainOfPrefix(f, h0, input, input + part, blocks);
  }

  /** The digest of an absorbed input: its last block, one to 64 bytes of it, is compressed
      zero-padded and marked final. */
  function Digest(f: Compress, h0: seq<bv32>, input: Bytes): Bytes {
    var blocks := if input == [] then 0 else (|input| - 1) / BLOCK;
    var held := input[BLOCK * blocks..];
    Output(f(Chain(f, h0, input, blocks), held + Zeros(BLOCK - |held|), Counter(|input|), true))
  }

  lemma {:induction false} AbsorbedDigest(f: Compress, h0: seq<bv32>, input: Bytes, blocks: nat, h: seq<bv32>, t: nat,
                                          held: Bytes)
    requires Absorbed(f, h0, input, blocks, h, t, held) && (input != [] ==> held != [])
    ensures Output(f(h, held + Zeros(BLOCK - |held|), Ahead(t, |held|), true)) == Digest(f, h0, input)
  {
    CounterAdd(BLOCK * blocks, |held|);
    assert blocks == if input == [] then 0 else (|input| - 1) / BLOCK;
  }

  /** The lazily buffered digest is the block-by-block one of RFC 7693: for a message, a key
      or both, for neither, and for whole multiples of the block size. */
  lemma {:induction false} DigestIsReference(f: Compress, h0: seq<bv32>, key: Bytes, message: Bytes)
    requires |key| <= BLOCK
    ensures Digest(f, h0, KeyBlock(key) + message) == ReferenceFrom(f, h0, key, message)
  {
    var input, d := KeyBlock(key) + message, DataBlocks(key, message);
    var blocks := if input == [] then 0 else (|input| - 1) / BLOCK;
    PaddedLength(key, message, blocks);
    LastBlockIsHeld(d, input, blocks);
    ChainOfPrefix(f, h0, d, input, blocks);
    ReferenceWith(f, h0, key, message, d, blocks);
  }

  lemma {:induction false} ReferenceWith(f: Compress, h0: seq<bv32>, key: Bytes, message: Bytes, d: Bytes, blocks: nat)
    requires |key| <= BLOCK && d == DataBlocks(key, message) && |d| == BLOCK * (blocks + 1)
    ensures ReferenceFrom(f, h0, key, message) ==
            Output(f(Chain(f, h0, d, blocks), d[BLOCK * blocks..BLOCK * (blocks + 1)],
                     Counter(|KeyBlock(key) + message|), true))
  {
    assert |d| / BLOCK == blocks + 1;
  }

  lemma {:induction false} LastBlockIsHeld(d: Bytes, input: Bytes, blocks: nat)
    requires BLOCK * blocks <= |input| <= BLOCK * (blocks + 1) == |d|
    requires d == input + Zeros(BLOCK * (blocks + 1) - |input|)
    ensures var held := input[BLOCK * blocks..];
            d[BLOCK * blocks..BLOCK * (blocks + 1)] == held + Zeros(BLOCK - |held|)
  {
  }

  lemma {:induction false} PaddedLength(key: Bytes, message: Bytes, blocks: nat)
    requires |key| <= BLOCK
    requires var input := KeyBlock(key) + message; blocks == if input == [] then 0 else (|input| - 1) / BLOCK
    ensures var input, d := KeyBlock(key) + message, DataBlocks(key, message);
      && BLOCK * blocks <= |input| <= BLOCK * (blocks + 1) == |d| && |d| / BLOCK == blocks + 1
      && d == input + Zeros(BLOCK * (blocks + 1) - |input|)
  {
    var input := KeyBlock(key) + message;
    DataBlocksArePaddedInput(key, message);
    if input != [] {
      FinalPad(blocks, |input| - BLOCK * blocks);
    }
  }

  lemma {:induction false} FinalPad(blocks: nat, n: nat)
    requires 0 < n <= BLOCK
    ensures PadLength(BLOCK * blocks + n) == BLOCK - n
  {
    assert (BLOCK * blocks + n) % BLOCK == n % BLOCK;
  }

  lemma {:induction false} CounterAdd(offset: nat, n: nat)
    ensures Ahead(Counter(offset), n) == Counter(offset + n)
  {
    var q := offset / U64_LIMIT;
    assert offset + n == U64_LIMIT * q + (Counter(offset) + n);
  }

  /** A hash in progress. A full buffer is compressed only once more input arrives, because
      the last block, full or not, is the one marked final. `input` is what has been
      absorbed, the key block included. */
  class Hasher {
    const f: Compress
    ghost const h0: seq<bv32>
    var h: seq<bv32>
    var t: nat
    const buf: array<byte>
    var len: nat
    ghost var input: Bytes
    ghost var blocks: nat

    ghost predicate Buffered()
      reads this, buf
    {
      buf.Length == BLOCK && len <= BLOCK && Absorbed(f, h0, input, blocks, h, t, buf[..len])
    }

    ghost predicate Valid()
      reads this, buf
    {
      Buffered() && (input != [] ==> len > 0)
    }

    constructor (f: Compress, outlen: nat, key: Bytes)
      requires |key| <= BLOCK && outlen <= 32
      ensures Valid() && fresh(buf)
      ensures this.f == f && h0 == InitialState(outlen, |key|) && input == KeyBlock(key)
    {
      var initial := InitialState(outlen, |key|);
      var buffer := new byte[BLOCK](_ => 0);
      CopyFromSlice(buffer, 0, key);
      this.f, h0, h, t := f, initial, initial, 0;
      buf := buffer;
      len := if key != [] then BLOCK else 0;
      input, blocks := KeyBlock(key), 0;
      new;
      assert buf[..len] == KeyBlock(key);
    }

    /** Compress a full buffer as a block that is not the last. */
    method Flush()
      requires Buffered() && len == BLOCK
      modifies this`h, this`t, this`len, this`blocks
      ensures Buffered() && len == 0
    {
      AbsorbedFlush(f, h0, input, blocks, h, t, buf[..len]);
      assert buf[..] == buf[..len];
      t := Ahead(t, BLOCK);
      h := f(h, buf[..], t, false);
      len := 0;
      blocks := blocks + 1;
      assert buf[..len] == [];
    }

    /** Copy bytes that fit behind the ones buffered. */
    method Append(part: Bytes)
      requires Buffered() && len + |part| <= BLOCK && part != []
      modifies this`len, this`input, buf
      ensures Valid() && input == old(input) + part
    {
      AbsorbedMore(f, h0, input, blocks, h, t, buf[..len], part);
      CopyFromSlice(buf, len, part);
      assert buf[..len + |part|] == old(buf[..len]) + part;
      len := len + |part|;
      input := input + part;
    }

    /** Absorb more of the message. */
    method Update(data: Bytes)
      requires Valid()
      modifies this`h, this`t, this`len, this`blocks, this`input, buf
      ensures Valid() && input == old(input) + data
    {
      var rest := data;
      while rest != []
        invariant Valid() && input + rest == old(input) + data
        decreases |rest|
      {
        if len == BLOCK {
          Flush();
        }
        var n := if |rest| < BLOCK - len then |rest| else BLOCK - len;
        Append(rest[..n]);
        rest := rest[n..];
      }
    }

    /** The digest of everything absorbed. */
    method Finalize() returns (out: Bytes)
      requires Valid()
      modifies this`h, this`t, buf
      ensures out == Digest(f, h0, input)
    {
      ghost var held, want := buf[..len], Digest(f, h0, input);
      assert Output(f(h, held + Zeros(BLOCK - len), Ahead(t, len), true)) == want by {
        AbsorbedDigest(f, h0, input, blocks, h, t, held);
      }
      t := Ahead(t, len);
      var block := PadBlock(buf, len);
      h := f(h, block, t, true);
      out := Output(h);
    }
  }

  /** Overwrite part of a buffer, leaving the rest of it. */
  method CopyFromSlice(dst: array<byte>, at: nat, src: Bytes)
    requires at + |src| <= dst.Length
    modifies dst
    ensures dst[..] == old(dst[..at]) + src + old(dst[at + |src|..])
  {
    forall i | 0 <= i < |src| {
      dst[at + i] := src[i];
    }
  }

  /** Zero a buffer from an index on; what it then holds. */
  method PadBlock(dst: array<byte>, at: nat) returns (block: Bytes)
    requires at <= dst.Length
    modifies dst
    ensures block == dst[..] == old(dst[..at]) + Zeros(dst.Length - at)
  {
    forall i | at <= i < dst.Length {
      dst[i] := 0;
    }
    block := dst[..];
  }

  // ---------------------------------------------------------------- whole messages

  /** Unkeyed BLAKE2s-256. */
  function Hash(f: Compress, message: Bytes): Bytes {
    Reference(f, 32, [], message)
  }

  lemma {:induction false} JoinStep(before: Bytes, parts: seq<Bytes>, i: nat)
    requires i < |parts|
    ensures before + Join(parts[..i]) + parts[i] == before + Join(parts[..i + 1])
  {
    assert parts[..i + 1] == parts[..i] + [parts[i]];
    JoinConcat(parts[..i], [parts[i]]);
    JoinFew(parts[i], [], []);
  }

  /** Feed a message to a hash in parts. */
  method UpdateAll(hasher: Hasher, parts: seq<Bytes>)
    requires hasher.Valid()
    modifies hasher, hasher.buf
    ensures hasher.Valid() && hasher.input == old(hasher.input) + Join(parts)
  {
    ghost var before := hasher.input;
    for i := 0 to |parts|
      invariant hasher.Valid() && hasher.input == before + Join(parts[..i])
    {
      JoinStep(before, parts, i);
      hasher.Update(parts[i]);
    }
    assert parts[..|parts|] == parts;
  }

  /** A keyed hash of any output length; the digest is the first `outlen` bytes. However the
      message is cut into `update` calls, it is the digest of the whole. */
  method HashKeyed(f: Compress, outlen: nat, key: Bytes, parts: seq<Bytes>) returns (out: Bytes)
    requires outlen <= 32 && |key| <= BLOCK
    ensures out == Reference(f, outlen, key, Join(parts))
  {
    var hasher := new Hasher(f, outlen, key);
    UpdateAll(hasher, parts);
    DigestIsReference(f, hasher.h0, key, Join(parts));
    out := hasher.Finalize();
  }

  /** `blake2s`: the unkeyed 256-bit hash of a message in parts. */
  method HashParts(f: Compress, parts: seq<Bytes>) returns (out: Bytes)
    ensures out == Hash(f, Join(parts))
  {
    out := HashKeyed(f, 32, [], parts);
  }

  /** A block of `c` flipped by the bytes of a key. */
  function FlippedPad(c: byte, key: Bytes): (pad: Bytes)
    requires |key| <= BLOCK
    ensures |pad| == BLOCK
  {
    var k0 := key + Zeros(BLOCK - |key|);
    seq(BLOCK, i requires 0 <= i < BLOCK => XorByte(c, k0[i]))
  }

  /** HMAC with BLAKE2s: H(K ^ opad, H(K ^ ipad, text)), a long key hashed first. */
  function Hmac(f: Compress, key: Bytes, text: Bytes): Bytes
    requires |key| <= BLOCK
  {
    Hash(f, FlippedPad(0x5c, key) + Hash(f, FlippedPad(0x36, key) + text))
  }

  function HmacAnyKey(f: Compress, key: Bytes, text: Bytes): Bytes
    requires EightWords(f)
  {
    Hmac(f, if |key| > BLOCK then Hash(f, key) else key, text)
  }

  method InnerPad(k: Bytes) returns (pad: array<byte>)
    requires |k| <= BLOCK
    ensures fresh(pad) && pad[..] == FlippedPad(0x36, k)
  {
    pad := new byte[BLOCK](_ => 0x36);
    for i := 0 to |k|
      invariant forall j :: 0 <= j < BLOCK ==> pad[j] == if j < i then XorByte(0x36, k[j]) else 0x36
    {
      pad[i] := XorByte(pad[i], k[i]);
    }
    PadIsFlipped(pad[..], k);
  }

  /** Turn the inner pad into the outer one without the key. */
  method OuterPad(pad: array<byte>, ghost k: Bytes)
    requires |k| <= BLOCK && pad[..] == FlippedPad(0x36, k)
    modifies pad
    ensures pad[..] == FlippedPad(0x5c, k)
  {
    ghost var inner, outer := FlippedPad(0x36, k), FlippedPad(0x5c, k);
    assert pad.Length == |pad[..]| == BLOCK;
    for i := 0 to BLOCK
      invariant forall j :: 0 <= j < BLOCK ==> pad[j] == if j < i then outer[j] else inner[j]
    {
      PadReplace(k, i);
      pad[i] := XorByte(pad[i], XorByte(0x36, 0x5c));
    }
  }

  lemma {:induction false} PadReplace(k: Bytes, i: nat)
    requires |k| <= BLOCK && i < BLOCK
    ensures XorByte(FlippedPad(0x36, k)[i], XorByte(0x36, 0x5c)) == FlippedPad(0x5c, k)[i]
  {
    XorReplace(0x36, 0x5c, (k + Zeros(BLOCK - |k|))[i]);
  }

  lemma {:induction false} PadIsFlipped(pad: Bytes, k: Bytes)
    requires |pad| == BLOCK && |k| <= BLOCK
    requires forall j :: 0 <= j < BLOCK ==> pad[j] == if j < |k| then XorByte(0x36, k[j]) else 0x36
    ensures pad == FlippedPad(0x36, k)
  {
    XorZero(0x36);
  }

  /** HMAC over a message in parts, with one pad edited in place. */
  method HmacParts(f: Compress, key: Bytes, parts: seq<Bytes>) returns (out: Bytes)
    requires EightWords(f)
    ensures out == HmacAnyKey(f, key, Join(parts))
  {
    var k := key;
    if |key| > BLOCK {
      JoinFew(key, [], []);
      k := HashParts(f, [key]);
    }
    var pad := InnerPad(k);
    JoinFew(pad[..], [], parts);
    var inner := HashParts(f, [pad[..]] + parts);
    OuterPad(pad, k);
    JoinFew(pad[..], inner, []);
    out := HashParts(f, [pad[..], inner]);
  }
}
