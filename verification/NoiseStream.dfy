/** The encrypted byte stream: `NoiseWriter` framing and a `NoiseReader` that survives a
    `recv` future dropped at any byte (`src/noise.rs`). */
module NoiseStream {
  import opened Base
  import opened Crypto

  const MAX_MSG: nat := 65535
  const MAX_PLAINTEXT: nat := MAX_MSG - TAGLEN

  /** The next u64 counter value; the addition wraps. */
  function Bump(n: nat): (r: nat)
    ensures r < U64_LIMIT
  {
    if n + 1 >= U64_LIMIT then 0 else n + 1
  }

  /** The counter `k` frames on. */
  function Advance(n: nat, k: nat): nat
    decreases k
  {
    if k == 0 then n else Advance(Bump(n), k - 1)
  }

  /** One frame, `[len:2][ciphertext][tag]`. */
  function FrameBytes(aead: Aead, key: Bytes, n: nat, chunk: Bytes): Bytes {
    BigEndian(|chunk| + TAGLEN, 2) + aead.seal(key, n, [], chunk)
  }

  /** A frame byte by byte: the sealed length, high byte first, and the sealed chunk. */
  lemma {:induction false} FrameBytesAre(aead: Aead, key: Bytes, n: nat, chunk: Bytes)
    requires LawfulAead(aead) && |chunk| <= 65519
    ensures var b := FrameBytes(aead, key, n, chunk);
            && |b| == |chunk| + 18 && b[0] == (|chunk| + 16) / 256 && b[1] == (|chunk| + 16) % 256
            && b[2..] == aead.seal(key, n, [], chunk)
  {
    var len := |chunk| + 16;
    BigEndianByte(len, 2, 0);
    BigEndianByte(len, 2, 1);
    assert Pow256(0) == 1 && Pow256(1) == 256;
  }

  /** The bytes of a list of frames, the first under nonce `n`. */
  function WireOf(aead: Aead, key: Bytes, n: nat, chunks: seq<Bytes>): Bytes
    decreases |chunks|
  {
    if chunks == [] then []
    else FrameBytes(aead, key, n, chunks[0]) + WireOf(aead, key, Bump(n), chunks[1..])
  }

  /** `plaintext.chunks(MAX_PLAINTEXT)`. */
  function Chunks(plain: Bytes): seq<Bytes>
    decreases |plain|
  {
    if plain == [] then []
    else if |plain| <= MAX_PLAINTEXT then [plain]
    else [plain[..MAX_PLAINTEXT]] + Chunks(plain[MAX_PLAINTEXT..])
  }

  function FirstChunk(plain: Bytes): Bytes {
    if |plain| <= MAX_PLAINTEXT then plain else plain[..MAX_PLAINTEXT]
  }

  lemma {:induction false} ChunksStep(done: seq<Bytes>, rest: Bytes)
    requires rest != []
    ensures |FirstChunk(rest)| <= |rest|
    ensures done + Chunks(rest) == (done + [FirstChunk(rest)]) + Chunks(rest[|FirstChunk(rest)|..])
  {
    assert Chunks(rest) == [FirstChunk(rest)] + Chunks(rest[|FirstChunk(rest)|..]);
  }

  /** Chunking loses nothing and every chunk fits a frame. */
  lemma {:induction false} ChunksJoin(plain: Bytes)
    ensures Join(Chunks(plain)) == plain
    ensures forall c :: c in Chunks(plain) ==> 0 < |c| <= MAX_PLAINTEXT
    decreases |plain|
  {
    if |plain| > MAX_PLAINTEXT {
      ChunksJoin(plain[MAX_PLAINTEXT..]);
      assert plain == plain[..MAX_PLAINTEXT] + plain[MAX_PLAINTEXT..];
      assert Chunks(plain)[1..] == Chunks(plain[MAX_PLAINTEXT..]);
    } else if plain != [] {
      assert Chunks(plain)[1..] == [];
      assert plain + [] == plain;
    }
  }

  /** And every chunk but the last is full. */
  lemma {:induction false} ChunksAreFull(plain: Bytes, i: nat)
    requires i + 1 < |Chunks(plain)|
    ensures |Chunks(plain)[i]| == 65519
    decreases |plain|
  {
    if i > 0 {
      ChunksAreFull(plain[MAX_PLAINTEXT..], i - 1);
    }
  }

  /** The frame at the front of a byte stream, once all of it is there. */
  function NextFrame(stream: Bytes): Option<(Bytes, Bytes)> {
    if |stream| < 2 then None
    else
      var end := 2 + FromBigEndian(stream[..2]);
      if |stream| < end then None else Some((stream[2..end], stream[end..]))
  }

  predicate Fit(chunks: seq<Bytes>) {
    forall c :: c in chunks ==> |c| <= MAX_PLAINTEXT
  }

  /** A frame's length fits its u16 and the frame parses back out of the stream. */
  lemma {:induction false} NextFrameOfWire(aead: Aead, key: Bytes, n: nat, chunks: seq<Bytes>)
    requires LawfulAead(aead) && chunks != [] && Fit(chunks)
    ensures |chunks[0]| + TAGLEN < U16_LIMIT
    ensures NextFrame(WireOf(aead, key, n, chunks))
         == Some((aead.seal(key, n, [], chunks[0]), WireOf(aead, key, Bump(n), chunks[1..])))
  {
    var stream, rest := WireOf(aead, key, n, chunks), WireOf(aead, key, Bump(n), chunks[1..]);
    var sealed := aead.seal(key, n, [], chunks[0]);
    assert chunks[0] in chunks;
    assert stream == BigEndian(|chunks[0]| + TAGLEN, 2) + sealed + rest;
    assert stream[..2] == BigEndian(|chunks[0]| + TAGLEN, 2);
    WidthLimits();
    BigEndianRoundTrip(|chunks[0]| + TAGLEN, 2);
    assert stream[2..2 + |sealed|] == sealed;
    assert stream[2 + |sealed|..] == rest;
  }

  lemma {:induction false} AdvanceLast(n: nat, k: nat)
    ensures Advance(n, k + 1) == Bump(Advance(n, k))
    decreases k
  {
    if k > 0 {
      AdvanceLast(Bump(n), k - 1);
    }
  }

  lemma {:induction false} Regrouped(a: Bytes, b: Bytes, c: Bytes)
    ensures a + b + c == a + (b + c)
  {
  }

  lemma {:induction false} WireOfConcat(aead: Aead, key: Bytes, n: nat, a: seq<Bytes>, b: seq<Bytes>)
    ensures WireOf(aead, key, n, a + b) == WireOf(aead, key, n, a) + WireOf(aead, key, Advance(n, |a|), b)
    decreases |a|
  {
    if a == [] {
      assert a + b == b;
    } else {
      WireOfConcat(aead, key, Bump(n), a[1..], b);
      assert Advance(n, |a|) == Advance(Bump(n), |a[1..]|);
      assert (a + b)[1..] == a[1..] + b;
      Regrouped(FrameBytes(aead, key, n, a[0]), WireOf(aead, key, Bump(n), a[1..]),
                WireOf(aead, key, Advance(n, |a|), b));
    }
  }

  lemma {:induction false} FrameAppended(
      aead: Aead, key: Bytes, n: nat, before: Bytes, framed: seq<Bytes>, chunk: Bytes)
    ensures before + WireOf(aead, key, n, framed + [chunk])
         == before + WireOf(aead, key, n, framed) + FrameBytes(aead, key, Advance(n, |framed|), chunk)
    ensures Advance(n, |framed| + 1) == Bump(Advance(n, |framed|))
  {
    var last := FrameBytes(aead, key, Advance(n, |framed|), chunk);
    assert WireOf(aead, key, n, framed + [chunk]) == WireOf(aead, key, n, framed) + last by {
      WireOfConcat(aead, key, n, framed, [chunk]);
    }
    Regrouped(before, WireOf(aead, key, n, framed), last);
    AdvanceLast(n, |framed|);
  }

  // ---------------------------------------------------------------- the writer

  datatype Call = Send(plain: Bytes) | Probe

  /** The plaintexts a call puts in frames; an empty `send` emits nothing. */
  function ChunksOf(call: Call): seq<Bytes> {
    match call
    case Send(plain) => Chunks(plain)
    case Probe => [[]]
  }

  function CallChunks(calls: seq<Call>): seq<Bytes> {
    if calls == [] then [] else ChunksOf(calls[0]) + CallChunks(calls[1..])
  }

  lemma {:induction false} CallChunksFit(calls: seq<Call>)
    ensures Fit(CallChunks(calls))
  {
    if calls != [] {
      if calls[0].Send? {
        ChunksJoin(calls[0].plain);
      }
      CallChunksFit(calls[1..]);
    }
  }

  /** The sending half; `out` is everything written to the stream. */
  class NoiseWriter {
    const aead: Aead
    const sendKey: Bytes
    var sendN: nat
    var buf: Bytes
    var out: Bytes

    ghost predicate Valid()
      reads this
    {
      sendN < U64_LIMIT && LawfulAead(aead)
    }

    constructor (aead: Aead, sendKey: Bytes)
      requires LawfulAead(aead)
      ensures Valid() && sendN == 0 && out == [] && this.aead == aead && this.sendKey == sendKey
    {
      this.aead, this.sendKey, sendN, buf, out := aead, sendKey, 0, [], [];
    }

    /** Prefix a chunk with its sealed length and seal it behind that, under the next nonce. */
    method Frame(chunk: Bytes)
      requires Valid() && |chunk| <= MAX_PLAINTEXT
      modifies this`buf, this`sendN
      ensures Valid() && buf == FrameBytes(aead, sendKey, old(sendN), chunk) && sendN == Bump(old(sendN))
    {
      buf := [];
      buf := buf + BigEndian(|chunk| + TAGLEN, 2);
      buf := buf + chunk;
      assert buf[2..] == chunk;
      buf := buf[..2] + aead.seal(sendKey, sendN, [], buf[2..]);
      sendN := Bump(sendN);
    }

    /** Frame one more chunk and write it. */
    method Emit(chunk: Bytes, ghost n: nat, ghost before: Bytes, ghost framed: seq<Bytes>)
      requires Valid() && |chunk| <= MAX_PLAINTEXT && sendN == Advance(n, |framed|)
      requires out == before + WireOf(aead, sendKey, n, framed)
      modifies this
      ensures Valid() && sendN == Advance(n, |framed| + 1)
      ensures out == before + WireOf(aead, sendKey, n, framed + [chunk])
    {
      FrameAppended(aead, sendKey, n, before, framed, chunk);
      Frame(chunk);
      out := out + buf;
    }

    /** Send a plaintext of any length: the stream gains its chunks, framed in order. */
    method Send(plain: Bytes)
      requires Valid()
      modifies this
      ensures Valid()
      ensures out == old(out) + WireOf(aead, sendKey, old(sendN), Chunks(plain))
      ensures sendN == Advance(old(sendN), |Chunks(plain)|)
    {
      var rest := plain;
      ghost var framed: seq<Bytes>, n, before := [], sendN, out;
      while rest != []
        invariant Valid() && framed + Chunks(rest) == Chunks(plain)
        invariant sendN == Advance(n, |framed|) && out == before + WireOf(aead, sendKey, n, framed)
        decreases |rest|
      {
        var chunk := FirstChunk(rest);
        ChunksStep(framed, rest);
        Emit(chunk, n, before, framed);
        rest := rest[|chunk|..];
        framed := framed + [chunk];
      }
      assert framed == Chunks(plain);
    }

    /** Send one empty frame, which `send` of nothing would not. */
    method Probe()
      requires Valid()
      modifies this
      ensures Valid()
      ensures out == old(out) + WireOf(aead, sendKey, old(sendN), [[]])
      ensures sendN == Advance(old(sendN), 1)
    {
      Frame([]);
      out := out + buf;
    }
  }

  /** What a list of calls leaves behind: the counter and the bytes written, call by call. */
  function WriterRun(aead: Aead, key: Bytes, n: nat, calls: seq<Call>): (nat, Bytes)
    decreases |calls|
  {
    if calls == [] then (n, [])
    else
      var chunks := ChunksOf(calls[0]);
      var (n', rest) := WriterRun(aead, key, Advance(n, |chunks|), calls[1..]);
      (n', WireOf(aead, key, n, chunks) + rest)
  }

  /** A whole list of calls writes one run of frames under consecutive nonces. */
  lemma {:induction false} WriterRunIsOneWire(aead: Aead, key: Bytes, n: nat, calls: seq<Call>)
    ensures WriterRun(aead, key, n, calls)
         == (Advance(n, |CallChunks(calls)|), WireOf(aead, key, n, CallChunks(calls)))
    decreases |calls|
  {
    if calls != [] {
      var chunks := ChunksOf(calls[0]);
      WriterRunIsOneWire(aead, key, Advance(n, |chunks|), calls[1..]);
      WireOfConcat(aead, key, n, chunks, CallChunks(calls[1..]));
      AdvanceAdds(n, |chunks|, |CallChunks(calls[1..])|);
    }
  }

  lemma {:induction false} AdvanceAdds(n: nat, j: nat, k: nat)
    ensures Advance(Advance(n, j), k) == Advance(n, j + k)
    decreases j
  {
    if j > 0 {
      AdvanceAdds(Bump(n), j - 1, k);
    }
  }

  /** The plaintexts of the whole frames at the front of a stream. */
  function Decoded(aead: Aead, key: Bytes, n: nat, stream: Bytes): seq<Bytes>
    decreases |stream|
  {
    match NextFrame(stream)
    case None => []
    case Some((sealed, rest)) =>
      match aead.open(key, n, [], sealed)
      case None => []
      case Some(plain) => [plain] + Decoded(aead, key, Bump(n), rest)
  }

  lemma {:induction false} WireDecodes(aead: Aead, key: Bytes, n: nat, chunks: seq<Bytes>)
    requires LawfulAead(aead) && Fit(chunks)
    ensures Decoded(aead, key, n, WireOf(aead, key, n, chunks)) == chunks
    decreases |chunks|
  {
    if chunks != [] {
      NextFrameOfWire(aead, key, n, chunks);
      WireDecodes(aead, key, Bump(n), chunks[1..]);
    }
  }

  /** All the bytes a list of calls was given to send. */
  function Payload(calls: seq<Call>): Bytes {
    if calls == [] then [] else (if calls[0].Send? then calls[0].plain else []) + Payload(calls[1..])
  }

  lemma {:induction false} CallChunksJoin(calls: seq<Call>)
    ensures Join(CallChunks(calls)) == Payload(calls)
  {
    if calls != [] {
      var chunks := ChunksOf(calls[0]);
      JoinConcat(chunks, CallChunks(calls[1..]));
      CallChunksJoin(calls[1..]);
      if calls[0].Send? {
        ChunksJoin(calls[0].plain);
      } else {
        assert chunks[1..] == [];
      }
    }
  }

  /** Everything written comes back: the frames decode to the calls' chunks, one by one,
      and those are the bytes the calls were given. */
  lemma {:induction false} WrittenCallsAreRead(aead: Aead, key: Bytes, calls: seq<Call>)
    requires LawfulAead(aead)
    ensures Decoded(aead, key, 0, WriterRun(aead, key, 0, calls).1) == CallChunks(calls)
    ensures Join(Decoded(aead, key, 0, WriterRun(aead, key, 0, calls).1)) == Payload(calls)
  {
    WriterRunIsOneWire(aead, key, 0, calls);
    CallChunksFit(calls);
    WireDecodes(aead, key, 0, CallChunks(calls));
    CallChunksJoin(calls);
  }

  // ---------------------------------------------------------------- the reader

  /** The byte stream a reader reads from: what has not been read yet. */
  class Pipe {
    var pending: Bytes

    constructor (pending: Bytes)
      ensures this.pending == pending
    {
      this.pending := pending;
    }

    /** One `read` into `room` bytes: at least one byte and as many as the transport
        chooses to hand over, or none at the end of the stream. */
    method Read(room: nat, offered: nat) returns (got: Bytes)
      requires room > 0
      modifies this
      ensures got + pending == old(pending) && |got| <= room
      ensures got == [] <==> old(pending) == []
    {
      var n := if offered == 0 then 1 else offered;
      n := if n > room then room else n;
      n := if n > |pending| then |pending| else n;
      got := pending[..n];
      pending := pending[n..];
    }
  }

  /** How one `recv` future ends; `Dropped` is a future cancelled while it waits to read. */
  datatype Outcome = Received(n: nat) | Dropped | Closed | DecryptFailed

  /** The receiving half. Progress within a frame lives in these fields, so a dropped
      future loses no byte. */
  class NoiseReader {
    const aead: Aead
    const recvKey: Bytes
    var recvN: nat
    var len: Bytes
    var lenFilled: nat
    var haveLen: bool
    var body: Bytes
    var bodyFilled: nat

    ghost predicate Valid()
      reads this
    {
      && recvN < U64_LIMIT && LawfulAead(aead)
      && |len| == 2 && lenFilled <= 2
      && (haveLen ==> lenFilled == 2 && |body| == FromBigEndian(len) && bodyFilled <= |body|)
    }

    /** The bytes of the current frame read so far. */
    ghost function Held(): Bytes
      requires Valid()
      reads this
    {
      len[..lenFilled] + if haveLen then body[..bodyFilled] else []
    }

    constructor (aead: Aead, recvKey: Bytes)
      requires LawfulAead(aead)
      ensures Valid() && Held() == [] && recvN == 0 && this.aead == aead && this.recvKey == recvKey
    {
      this.aead, this.recvKey, recvN := aead, recvKey, 0;
      len, lenFilled, haveLen, body, bodyFilled := [0, 0], 0, false, [], 0;
    }

    /** The length prefix: read what is missing of it, then size `body` for the frame. */
    method FillLen(pipe: Pipe, offers: seq<nat>) returns (k: nat, stop: Option<Outcome>)
      requires Valid()
      modifies this, pipe
      ensures Valid() && k <= |offers| && recvN == old(recvN)
      ensures Held() + pipe.pending == old(Held() + pipe.pending) && |Held()| >= old(|Held()|) + k
      ensures stop.None? ==> haveLen
      ensures stop.Some? ==> stop == Some(Dropped) || stop == Some(Closed)
      ensures stop == Some(Dropped) ==> k == |offers|
      ensures stop == Some(Closed) ==> pipe.pending == [] && NextFrame(Held()) == None
    {
      ghost var stream := Held() + pipe.pending;
      k := 0;
      while lenFilled < 2
        invariant Valid() && k <= |offers| && Held() + pipe.pending == stream && recvN == old(recvN)
        invariant |Held()| >= old(|Held()|) + k
        decreases 2 - lenFilled
      {
        if k == |offers| {
          return k, Some(Dropped);
        }
        var got := pipe.Read(2 - lenFilled, offers[k]);
        if got == [] {
          return k, Some(Closed);
        }
        k := k + 1;
        len := len[..lenFilled] + got + len[lenFilled + |got|..];
        lenFilled := lenFilled + |got|;
      }
      if !haveLen {
        body := Zeros(FromBigEndian(len));
        bodyFilled := 0;
        haveLen := true;
      }
      stop := None;
    }

    /** The body: read what is missing of it. */
    method FillBody(pipe: Pipe, offers: seq<nat>) returns (stop: Option<Outcome>)
      requires Valid() && haveLen
      modifies this, pipe
      ensures Valid() && haveLen && recvN == old(recvN)
      ensures Held() + pipe.pending == old(Held() + pipe.pending) && |pipe.pending| <= old(|pipe.pending|)
      ensures stop.None? ==> bodyFilled == |body|
      ensures stop.Some? ==> stop == Some(Dropped) || stop == Some(Closed)
      ensures stop == Some(Dropped) ==> |Held()| >= old(|Held()|) + |offers|
      ensures stop == Some(Closed) ==> pipe.pending == [] && NextFrame(Held()) == None
    {
      ghost var stream := Held() + pipe.pending;
      var k := 0;
      while bodyFilled < |body|
        invariant Valid() && haveLen && recvN == old(recvN)
        invariant k <= |offers| && Held() + pipe.pending == stream && |Held()| >= old(|Held()|) + k
        decreases |body| - bodyFilled
      {
        if k == |offers| {
          return Some(Dropped);
        }
        var got := pipe.Read(|body| - bodyFilled, offers[k]);
        if got == [] {
          assert len[..2] == len;
          return Some(Closed);
        }
        k := k + 1;
        body := body[..bodyFilled] + got + body[bodyFilled + |got|..];
        bodyFilled := bodyFilled + |got|;
      }
      stop := None;
    }

    /** Open the whole frame in `body`, in place, and make ready for the next one. */
    method OpenBody() returns (r: Outcome)
      requires Valid() && haveLen
      modifies this
      ensures Valid() && Held() == [] && (r.Received? || r.DecryptFailed?)
      ensures var plain := aead.open(recvKey, old(recvN), [], old(body));
              && (r.Received? <==> plain.Some?)
              && (r.Received? ==> r.n <= |body| && body[..r.n] == plain.value && recvN == Bump(old(recvN)))
              && (r.DecryptFailed? ==> recvN == old(recvN))
    {
      lenFilled := 0;
      haveLen := false;
      var plain := aead.open(recvKey, recvN, [], body);
      if plain.None? {
        return DecryptFailed;
      }
      OpenedLength(aead, recvKey, recvN, [], body);
      body := plain.value + body[|plain.value|..];
      recvN := Bump(recvN);
      return Received(|plain.value|);
    }

    /** Take one frame off the stream. `offers` are the sizes the transport hands over before this
        future is dropped. Whatever they are, the bytes held
        and the bytes unread stay the same stream until a whole frame has been taken off it. */
    method Fill(pipe: Pipe, offers: seq<nat>) returns (r: Outcome)
      requires Valid()
      modifies this, pipe
      ensures Valid() && |pipe.pending| <= old(|pipe.pending|)
      ensures r.Dropped? ==> |Held()| >= old(|Held()|) + |offers|
      ensures r.Dropped? || r.Closed? ==> Held() + pipe.pending == old(Held() + pipe.pending) && recvN == old(recvN)
      ensures r.Closed? ==> pipe.pending == [] && NextFrame(old(Held() + pipe.pending)) == None
      ensures r.Received? || r.DecryptFailed? ==>
        var frame := NextFrame(old(Held() + pipe.pending));
        && frame.Some? && Held() == [] && pipe.pending == frame.value.1
        && var plain := aead.open(recvKey, old(recvN), [], frame.value.0);
        && (r.Received? <==> plain.Some?)
        && (r.Received? ==> r.n <= |body| && body[..r.n] == plain.value && recvN == Bump(old(recvN)))
        && (r.DecryptFailed? ==> recvN == old(recvN))
    {
      ghost var stream := Held() + pipe.pending;
      var k, stop := FillLen(pipe, offers);
      if stop.Some? {
        assert stop == Some(Closed) ==> stream == Held();
        return stop.value;
      }
      stop := FillBody(pipe, offers[k..]);
      if stop.Some? {
        assert stop == Some(Closed) ==> stream == Held();
        return stop.value;
      }
      assert len[..2] == len && body[..|body|] == body;
      WholeFrame(len, body, pipe.pending);
      r := OpenBody();
    }
  }

  lemma {:induction false} WholeFrame(len: Bytes, body: Bytes, rest: Bytes)
    requires |len| == 2 && |body| == FromBigEndian(len)
    ensures NextFrame(len + body + rest) == Some((body, rest))
  {
    var stream := len + body + rest;
    assert stream[..2] == len && stream[2..2 + |body|] == body && stream[2 + |body|..] == rest;
  }

  /** One `recv` against a stream that holds framed `chunks`: it takes the first of them or
      leaves the stream alone, and cannot fail to decrypt. A future dropped before its frame is
      whole has taken a byte off the stream for each read it lived to see, so one that lives
      through more reads than there are bytes is not dropped. */
  method Attempt(reader: NoiseReader, pipe: Pipe, offers: seq<nat>, ghost chunks: seq<Bytes>)
    returns (r: Outcome, ghost rest: seq<Bytes>)
    requires reader.Valid() && Fit(chunks)
    requires reader.Held() + pipe.pending == WireOf(reader.aead, reader.recvKey, reader.recvN, chunks)
    modifies reader, pipe
    ensures reader.Valid() && Fit(rest) && !r.DecryptFailed?
    ensures r.Closed? ==> chunks == []
    ensures r.Received? ==>
      && r.n <= |reader.body| && chunks == [reader.body[..r.n]] + rest
      && reader.recvN == Bump(old(reader.recvN))
    ensures !r.Received? ==> chunks == rest && reader.recvN == old(reader.recvN)
    ensures reader.Held() + pipe.pending == WireOf(reader.aead, reader.recvKey, reader.recvN, rest)
    ensures |pipe.pending| + (if r.Dropped? then |offers| else 0) <= old(|pipe.pending|)
    ensures |offers| > old(|reader.Held() + pipe.pending|) ==> !r.Dropped?
    ensures |reader.Held() + pipe.pending| <= old(|reader.Held() + pipe.pending|)
  {
    if chunks != [] {
      NextFrameOfWire(reader.aead, reader.recvKey, reader.recvN, chunks);
    }
    r := reader.Fill(pipe, offers);
    rest := if r.Received? then chunks[1..] else chunks;
  }

  /** How many attempts live through at least `least` reads. */
  function Lasting(attempts: seq<seq<nat>>, least: nat): nat {
    if attempts == [] then 0
    else Lasting(attempts[..|attempts| - 1], least) + if |attempts[|attempts| - 1]| >= least then 1 else 0
  }

  lemma {:induction false} LastingStep(attempts: seq<seq<nat>>, i: nat, least: nat)
    requires i < |attempts|
    ensures Lasting(attempts[..i + 1], least) == Lasting(attempts[..i], least) + if |attempts[i]| >= least then 1 else 0
  {
    assert attempts[..i + 1][..i] == attempts[..i];
  }

  /** A caller that receives under `select!`, dropping the future whenever another branch
      wins: each element of `attempts` is one `recv` and the reads it lived to see. What it has
      is a prefix of the written chunks under their own nonces, with the rest still readable;
      and it is all of them once the stream has closed, or once as many attempts as there are
      chunks and unread bytes lived to see a single read, or as many as there are chunks lived
      through the whole stream. */
  method ReceiveUnderSelect(reader: NoiseReader, pipe: Pipe, attempts: seq<seq<nat>>, ghost chunks: seq<Bytes>)
    returns (got: seq<Bytes>, closed: bool)
    requires reader.Valid() && Fit(chunks)
    requires reader.Held() + pipe.pending == WireOf(reader.aead, reader.recvKey, reader.recvN, chunks)
    modifies reader, pipe
    ensures reader.Valid()
    ensures |got| <= |chunks| && got == chunks[..|got|]
    ensures reader.recvN == Advance(old(reader.recvN), |got|)
    ensures reader.Held() + pipe.pending == WireOf(reader.aead, reader.recvKey, reader.recvN, chunks[|got|..])
    ensures closed ==> got == chunks
    ensures Lasting(attempts, 1) >= |chunks| + old(|pipe.pending|) ==> got == chunks
    ensures Lasting(attempts, old(|reader.Held() + pipe.pending|) + 1) >= |chunks| ==> got == chunks
  {
    got, closed := [], false;
    ghost var rest, unread, size := chunks, |pipe.pending|, |reader.Held() + pipe.pending|;
    var i := 0;
    while i < |attempts| && !closed
      invariant 0 <= i <= |attempts| && Reading(reader, pipe, old(reader.recvN), chunks, got, rest)
      invariant |reader.Held() + pipe.pending| <= size && (closed ==> rest == [])
      invariant rest == [] || Progress(attempts[..i], |got|, unread - |pipe.pending|, size)
      decreases |attempts| - i
    {
      got, closed, rest := ReceiveOnce(reader, pipe, attempts, i, old(reader.recvN), chunks, got, rest, unread, size);
      i := i + 1;
    }
    assert i == |attempts| ==> attempts[..i] == attempts;
    if closed {
      assert got == chunks && chunks[|got|..] == [];
    } else {
      PaidInFull(attempts, chunks, got, rest, unread, |pipe.pending|, size);
    }
  }

  /** Attempts enough to pay for everything have got everything. */
  lemma {:induction false} PaidInFull(attempts: seq<seq<nat>>, chunks: seq<Bytes>, got: seq<Bytes>, rest: seq<Bytes>,
                                      unread: nat, pending: nat, size: nat)
    requires got + rest == chunks && (rest == [] || Progress(attempts, |got|, unread - pending, size))
    ensures |got| <= |chunks| && got == chunks[..|got|] && rest == chunks[|got|..]
    ensures Lasting(attempts, 1) >= |chunks| + unread ==> got == chunks
    ensures Lasting(attempts, size + 1) >= |chunks| ==> got == chunks
  {
    assert rest != [] ==> |got| < |chunks|;
  }

  /** Received so far are `got`, and `rest` is still to be read. */
  ghost predicate Reading(reader: NoiseReader, pipe: Pipe, n: nat, chunks: seq<Bytes>, got: seq<Bytes>,
                          rest: seq<Bytes>)
    reads reader, pipe
  {
    && reader.Valid() && Fit(rest) && got + rest == chunks
    && reader.recvN == Advance(n, |got|)
    && reader.Held() + pipe.pending == WireOf(reader.aead, reader.recvKey, reader.recvN, rest)
  }

  /** Attempts are paid for: each by a chunk received or by bytes read. */
  predicate Progress(attempts: seq<seq<nat>>, got: nat, taken: int, size: nat) {
    Lasting(attempts, 1) <= got + taken && Lasting(attempts, size + 1) <= got
  }

  /** One attempt of that caller. */
  method ReceiveOnce(reader: NoiseReader, pipe: Pipe, attempts: seq<seq<nat>>, i: nat, ghost n: nat,
                     ghost chunks: seq<Bytes>, got: seq<Bytes>, ghost rest: seq<Bytes>,
                     ghost unread: nat, ghost size: nat)
    returns (more: seq<Bytes>, closed: bool, ghost left: seq<Bytes>)
    requires i < |attempts| && Reading(reader, pipe, n, chunks, got, rest)
    requires |reader.Held() + pipe.pending| <= size
    requires rest == [] || Progress(attempts[..i], |got|, unread - |pipe.pending|, size)
    modifies reader, pipe
    ensures Reading(reader, pipe, n, chunks, more, left)
    ensures |reader.Held() + pipe.pending| <= size && (closed ==> left == [])
    ensures left == [] || Progress(attempts[..i + 1], |more|, unread - |pipe.pending|, size)
  {
    ghost var taken := unread - |pipe.pending|;
    AdvanceLast(n, |got|);
    var r;
    r, left := Attempt(reader, pipe, attempts[i], rest);
    more, closed := got, r.Closed?;
    if r.Received? {
      var chunk := reader.body[..r.n];
      OneMore(got, chunk, left, rest, chunks);
      more := got + [chunk];
    }
    if left != [] {
      StillPaid(attempts, i, |got|, |more|, taken, unread - |pipe.pending|, size);
    }
  }

  lemma {:induction false} OneMore(
      got: seq<Bytes>, chunk: Bytes, left: seq<Bytes>, rest: seq<Bytes>, chunks: seq<Bytes>)
    requires got + rest == chunks && rest == [chunk] + left
    ensures got + [chunk] + left == chunks && |got + [chunk]| == |got| + 1
  {
    assert got + ([chunk] + left) == got + [chunk] + left;
  }

  lemma {:induction false} StillPaid(
      attempts: seq<seq<nat>>, i: nat, got: nat, more: nat, taken: int, taken': int, size: nat)
    requires i < |attempts| && Progress(attempts[..i], got, taken, size)
    requires if more > got then taken' >= taken
             else more == got && taken' >= taken + |attempts[i]| && |attempts[i]| <= size
    ensures Progress(attempts[..i + 1], more, taken', size)
  {
    LastingStep(attempts, i, 1);
    LastingStep(attempts, i, size + 1);
  }

  // ---------------------------------------------------------------- from one end to the other

  method Make(writer: NoiseWriter, call: Call)
    requires writer.Valid()
    modifies writer
    ensures writer.Valid()
    ensures writer.out == old(writer.out) + WireOf(writer.aead, writer.sendKey, old(writer.sendN), ChunksOf(call))
    ensures writer.sendN == Advance(old(writer.sendN), |ChunksOf(call)|)
  {
    match call
    case Send(plain) => writer.Send(plain);
    case Probe => writer.Probe();
  }

  /** Make the calls in order; the stream gains their chunks as one run of frames. */
  method WriteAll(writer: NoiseWriter, calls: seq<Call>)
    requires writer.Valid()
    modifies writer
    ensures writer.Valid()
    ensures writer.out == old(writer.out) + WireOf(writer.aead, writer.sendKey, old(writer.sendN), CallChunks(calls))
    ensures writer.sendN == Advance(old(writer.sendN), |CallChunks(calls)|)
  {
    ghost var n, before := writer.sendN, writer.out;
    for i := 0 to |calls|
      invariant writer.Valid() && Written(writer, n, before, CallChunks(calls[..i]))
    {
      WrittenMore(writer.aead, writer.sendKey, n, before, calls, i);
      Make(writer, calls[i]);
    }
    assert calls[..|calls|] == calls;
  }

  ghost predicate Written(writer: NoiseWriter, n: nat, before: Bytes, chunks: seq<Bytes>)
    reads writer
  {
    && writer.out == before + WireOf(writer.aead, writer.sendKey, n, chunks)
    && writer.sendN == Advance(n, |chunks|)
  }

  lemma {:induction false} WrittenMore(aead: Aead, key: Bytes, n: nat, before: Bytes, calls: seq<Call>, i: nat)
    requires i < |calls|
    ensures var done, chunks, all := CallChunks(calls[..i]), ChunksOf(calls[i]), CallChunks(calls[..i + 1]);
            var n' := Advance(n, |done|);
            && before + WireOf(aead, key, n, done) + WireOf(aead, key, n', chunks) == before + WireOf(aead, key, n, all)
            && Advance(n', |chunks|) == Advance(n, |all|)
  {
    CallChunksStep(calls, i);
    WireOfConcat(aead, key, n, CallChunks(calls[..i]), ChunksOf(calls[i]));
    AdvanceAdds(n, |CallChunks(calls[..i])|, |ChunksOf(calls[i])|);
  }

  lemma {:induction false} CallChunksStep(calls: seq<Call>, i: nat)
    requires i < |calls|
    ensures CallChunks(calls[..i + 1]) == CallChunks(calls[..i]) + ChunksOf(calls[i])
    decreases i
  {
    if i == 0 {
      assert calls[..1][1..] == [];
    } else {
      assert calls[..i][1..] == calls[1..][..i - 1] && calls[..i + 1][1..] == calls[1..][..i];
      CallChunksStep(calls[1..], i - 1);
    }
  }

  /** Main result, on the objects: whatever a writer was given in `send` and `probe` calls, a
      reader of its stream gets exactly those chunks, whose bytes are the bytes sent, however
      the stream is cut into reads and wherever `recv` futures are dropped, once it has seen the
      close or made enough attempts. */
  method Carry(aead: Aead, key: Bytes, calls: seq<Call>, attempts: seq<seq<nat>>)
    returns (got: seq<Bytes>, closed: bool)
    requires LawfulAead(aead)
    ensures |got| <= |CallChunks(calls)| && got == CallChunks(calls)[..|got|]
    ensures closed || Lasting(attempts, 1) >= |CallChunks(calls)| + |WireOf(aead, key, 0, CallChunks(calls))| ==>
              got == CallChunks(calls) && Join(got) == Payload(calls)
  {
    var writer := new NoiseWriter(aead, key);
    WriteAll(writer, calls);
    CallChunksFit(calls);
    CallChunksJoin(calls);
    var pipe := new Pipe(writer.out);
    var reader := new NoiseReader(aead, key);
    got, closed := ReceiveUnderSelect(reader, pipe, attempts, CallChunks(calls));
  }

  // ---------------------------------------------------------------- how long nonces stay distinct

  lemma {:induction false} AdvanceIsModular(n: nat, k: nat)
    requires n < U64_LIMIT
    ensures Advance(n, k) == (n + k) % U64_LIMIT
    decreases k
  {
    if k > 0 {
      AdvanceIsModular(Bump(n), k - 1);
      if n + 1 == U64_LIMIT {
        assert (n + k) % U64_LIMIT == (k - 1 + U64_LIMIT) % U64_LIMIT == (k - 1) % U64_LIMIT;
      }
    }
  }

  /** Two frames of one stream share a nonce exactly when a multiple of 2^64 frames lie between. */
  lemma {:induction false} NoncesRepeatIff(n: nat, i: nat, j: nat)
    requires n < U64_LIMIT && i <= j
    ensures Advance(n, i) == Advance(n, j) <==> (j - i) % U64_LIMIT == 0
  {
    AdvanceIsModular(n, i);
    AdvanceIsModular(n, j);
  }
}
