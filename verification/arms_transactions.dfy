/** Transactions: chunked responses and consecutive numbers. */
module ArmsTransactions {
  import opened Wrappers
  import opened Utf8
  import opened Arms

  // ---- The response ----

  function Repeated(seed: seq<byte>, size: nat): (r: seq<byte>)
    requires seed != []
    ensures |r| == size
  {
    seq(size, i requires 0 <= i < size => seed[i % |seed|])
  }

  /** The configured body as it is, or the seed repeated and cut to the requested size. */
  method BuildResponseContent(responseBody: seq<byte>, size: nat, defaultSeed: seq<byte>) returns (r: seq<byte>)
    requires defaultSeed != []
    ensures r == if size == 0 then responseBody else Repeated(if responseBody == [] then defaultSeed else responseBody,
              size)
  {
    if size == 0 {
      return responseBody;
    }
    var seed := if responseBody == [] then defaultSeed else responseBody;
    r := [];
    ghost var rounds := 0;
    while |r| < size
      invariant |r| <= size && r == Repeated(seed, |r|)
      invariant |r| == rounds * |seed| || |r| == size
      decreases size - |r|
    {
      var remaining := size - |r|;
      ghost var before := |r|;
      if remaining >= |seed| {
        RepeatedFurther(seed, rounds, |seed|);
        r := r + seed;
        rounds := rounds + 1;
        continue;
      }
      RepeatedFurther(seed, rounds, remaining);
      r := r + seed[..remaining];
    }
  }

  lemma RepeatedFurther(seed: seq<byte>, rounds: nat, more: nat)
    requires seed != [] && more <= |seed|
    ensures Repeated(seed, rounds * |seed|) + seed[..more] == Repeated(seed, rounds * |seed| + more)
    ensures seed[..|seed|] == seed
  {
    var n := |seed|;
    var long := Repeated(seed, rounds * n) + seed[..more];
    forall j | 0 <= j < rounds * n + more ensures long[j] == seed[j % n] {
      if j >= rounds * n {
        Wraps(rounds, n, j - rounds * n);
        assert long[j] == seed[..more][j - rounds * n];
      }
    }
  }

  lemma {:induction false} Wraps(rounds: nat, n: nat, i: nat)
    requires i < n
    ensures (rounds * n + i) % n == i
  {
    QuotientIs(rounds * n + i, n, rounds);
  }

  lemma Larger(a: nat, b: nat, n: nat)
    requires a <= b
    ensures a * n <= b * n
  {
  }

  lemma QuotientIs(x: nat, n: nat, q: nat)
    requires n > 0 && q * n <= x < q * n + n
    ensures x / n == q && x % n == x - q * n
  {
    var d := x / n;
    if d < q {
      Larger(d + 1, q, n);
    } else if d > q {
      Larger(q + 1, d, n);
    }
  }

  function Chunks(body: seq<byte>, size: nat): seq<seq<byte>>
    requires size > 0
    decreases |body|
  {
    if body == [] then []
    else if |body| <= size then [body]
    else [body[..size]] + Chunks(body[size..], size)
  }

  function Joined(chunks: seq<seq<byte>>): seq<byte> {
    if chunks == [] then [] else chunks[0] + Joined(chunks[1..])
  }

  /** Chunks hold 1 to `size` bytes, are ceil(length / size) many, and make up the body again. */
  lemma {:induction false} ChunksMakeUp(body: seq<byte>, size: nat)
    requires size > 0
    ensures var c := Chunks(body, size);
            && Joined(c) == body
            && (forall k :: 0 <= k < |c| ==> 1 <= |c[k]| <= size)
            && |c| == (|body| + size - 1) / size
    decreases |body|
  {
    if body == [] {
      NoChunks(size);
    } else if |body| <= size {
      assert [body][1..] == [];
      OneChunk(|body|, size);
    } else {
      var rest := Chunks(body[size..], size);
      ChunksMakeUp(body[size..], size);
      assert ([body[..size]] + rest)[1..] == rest;
      MoreChunks(|body|, size);
    }
  }

  lemma NoChunks(size: nat)
    requires size > 0
    ensures (size - 1) / size == 0
  {
  }

  lemma OneChunk(n: nat, size: nat)
    requires 0 < n <= size
    ensures (n + size - 1) / size == 1
  {
    AddQuotient(n - 1, size);
    assert (n - 1) / size == 0;
  }

  lemma MoreChunks(n: nat, size: nat)
    requires n > size > 0
    ensures (n + size - 1) / size == (n - size + size - 1) / size + 1
  {
    AddQuotient(n - 1, size);
  }

  lemma AddQuotient(x: nat, n: nat)
    requires n > 0
    ensures (x + n) / n == x / n + 1
  {
    var q := x / n;
    assert (q + 1) * n == q * n + n;
    QuotientIs(x + n, n, q + 1);
  }

  /** A chunk size of 0 means one chunk; an empty body has none at all. */
  function ChunkSize(configured: int, length: nat): (size: nat)
    ensures size > 0
  {
    var size := if configured == 0 then length else configured;
    if size <= 0 then 32768 else size
  }

  // ---- Frames of a transaction ----

  const REQUEST: byte := 0x63

  function ChunkFrames(sequence: uint64, id: seq<byte>, chunks: seq<seq<byte>>): seq<Frame>
    decreases |chunks|
  {
    if chunks == [] then []
    else [Frame(REQUEST, 0x03, sequence, id, chunks[0])] + ChunkFrames(Plus(sequence, 1), id, chunks[1..])
  }

  function Transaction(sequence: uint64, id: seq<byte>, metadata: seq<byte>, request: seq<byte>, response: seq<byte>,
                       chunkSize: int): seq<Frame> {
    var chunks := Chunks(response, ChunkSize(chunkSize, |response|));
    [Frame(0x01, 0x01, sequence, id, metadata), Frame(REQUEST, 0x02, Plus(sequence, 1), id, request)]
    + ChunkFrames(Plus(sequence, 2), id, chunks)
    + [Frame(REQUEST, 0x63, Plus(sequence, 2 + |chunks|), id, [])]
  }

  /** Numbered one after the other from `sequence`, modulo 2^64. */
  predicate Consecutive(frames: seq<Frame>, sequence: uint64) {
    forall k :: 0 <= k < |frames| ==> frames[k].sequence == Plus(sequence, k)
  }

  lemma {:induction false} ChunkFramesNumbered(sequence: uint64, id: seq<byte>, chunks: seq<seq<byte>>)
    ensures var f := ChunkFrames(sequence, id, chunks);
            |f| == |chunks| && Consecutive(f, sequence)
            && forall k :: 0 <= k < |f| ==>
                 f[k].messageType == REQUEST && f[k].subtype == 0x03 && f[k].requestID == id && f[k].body == chunks[k]
    decreases |chunks|
  {
    hide Plus;
    PlusPlus(sequence, 0, 0);
    if chunks != [] {
      ChunkFramesNumbered(Plus(sequence, 1), id, chunks[1..]);
      forall k: nat ensures Plus(Plus(sequence, 1), k) == Plus(sequence, k + 1) {
        PlusPlus(sequence, 1, k);
      }
    }
  }

  /** A transaction: metadata, request, response chunks, completion, all under one request ID and
      consecutive numbers; the chunks make up the response. */
  lemma TransactionFrames(sequence: uint64, id: seq<byte>, metadata: seq<byte>, request: seq<byte>, response: seq<byte>,
                          chunkSize: int)
    ensures var f, size := Transaction(sequence, id, metadata, request, response, chunkSize),
              ChunkSize(chunkSize, |response|);
            var n := (|response| + size - 1) / size;
            && |f| == 3 + n && Consecutive(f, sequence)
            && (forall k :: 0 <= k < |f| ==> f[k].requestID == id && f[k].messageType != 0)
            && f[0].body == metadata && f[1].body == request && f[2 + n].body == []
            && Joined(BodiesOf(f[2..2 + n])) == response
            && (forall k :: 2 <= k < 2 + n ==> 1 <= |f[k].body| <= size)
            && (chunkSize == 0 ==> n <= 1)
  {
    hide Plus, Chunks, ChunkFrames, Joined;
    var size := ChunkSize(chunkSize, |response|);
    var chunks := Chunks(response, size);
    var n := |chunks|;
    ChunksMakeUp(response, size);
    ChunkFramesNumbered(Plus(sequence, 2), id, chunks);
    var middle := ChunkFrames(Plus(sequence, 2), id, chunks);
    var f := Transaction(sequence, id, metadata, request, response, chunkSize);
    PlusPlus(sequence, 0, 0);
    forall k | 0 <= k < |f| ensures f[k].sequence == Plus(sequence, k) {
      if 2 <= k < 2 + n {
        assert f[k] == middle[k - 2];
        PlusPlus(sequence, 2, k - 2);
      }
    }
    assert f[2..2 + n] == middle;
    assert BodiesOf(middle) == chunks;
    if chunkSize == 0 && response != [] {
      OneChunk(|response|, |response|);
    } else if response == [] {
      NoChunks(size);
    }
  }

  // ---- The frames, number by number ----

  lemma {:induction false} ChunksFull(body: seq<byte>, size: nat)
    requires size > 0
    ensures forall k :: 0 <= k < |Chunks(body, size)| - 1 ==> |Chunks(body, size)[k]| == size
    decreases |body|
  {
    if |body| > size {
      ChunksFull(body[size..], size);
    }
  }

  /** The bytes of a chunk: those asked for, all of the response for 0, and 32 KiB for less. */
  function BytesPerChunk(configured: int, length: nat): int {
    if configured > 0 then configured else if configured < 0 || length == 0 then 32 * 1024 else length
  }

  lemma ChunkSizeIs(configured: int, length: nat)
    ensures ChunkSize(configured, length) == BytesPerChunk(configured, length) > 0
  {
  }

  /** Metadata is a frame of type 1, request, chunks and completion are of type 99 with subtypes 2, 3 and 99; all
      chunks but the last hold the bytes per chunk. */
  lemma TransactionExactly(sequence: uint64, id: seq<byte>, metadata: seq<byte>, request: seq<byte>,
                           response: seq<byte>, chunkSize: int)
    ensures var f := Transaction(sequence, id, metadata, request, response, chunkSize);
            var n := |f|;
            && n >= 3 && f[0] == Frame(1, 1, sequence, id, metadata)
            && f[1] == Frame(99, 2, (sequence + 1) % 0x1_0000_0000_0000_0000, id, request)
            && f[n - 1] == Frame(99, 99, (sequence + n - 1) % 0x1_0000_0000_0000_0000, id, [])
            && (forall k :: 2 <= k < n - 1 ==>
                  f[k] == Frame(99, 3, (sequence + k) % 0x1_0000_0000_0000_0000, id, f[k].body))
            && (forall k :: 2 <= k < n - 1 ==> 1 <= |f[k].body| <= BytesPerChunk(chunkSize, |response|))
            && (forall k :: 2 <= k < n - 2 ==> |f[k].body| == BytesPerChunk(chunkSize, |response|))
            && Joined(BodiesOf(f[2..n - 1])) == response
  {
    hide Chunks, ChunkFrames, Joined;
    var size := ChunkSize(chunkSize, |response|);
    var chunks := Chunks(response, size);
    ChunkSizeIs(chunkSize, |response|);
    ChunksFull(response, size);
    ChunksMakeUp(response, size);
    ChunkFramesNumbered(Plus(sequence, 2), id, chunks);
    TransactionFrames(sequence, id, metadata, request, response, chunkSize);
    var f := Transaction(sequence, id, metadata, request, response, chunkSize);
    var middle := ChunkFrames(Plus(sequence, 2), id, chunks);
    forall k | 2 <= k < |f| - 1 ensures f[k] == middle[k - 2] && f[k].body == chunks[k - 2] {
    }
  }

  function BodiesOf(frames: seq<Frame>): seq<seq<byte>> {
    seq(|frames|, k requires 0 <= k < |frames| => frames[k].body)
  }

  // ---- Building ----

  function EncodedAll(frames: seq<Frame>): seq<seq<byte>> {
    seq(|frames|, k requires 0 <= k < |frames| => Encoded(frames[k]))
  }

  method EncodeResponseFrames(sequence: uint64, id: seq<byte>, body: seq<byte>, configured: int)
    returns (r: Result<seq<seq<byte>>>, next: uint64)
    ensures var chunks := Chunks(body, ChunkSize(configured, |body|));
            && (r.Ok? <==> |id| == 36 || body == [])
            && (r.Ok? ==> r.value == EncodedAll(ChunkFrames(sequence, id, chunks)) && next == Plus(sequence, |chunks|))
  {
    hide Encoded, Plus, Chunks, ChunkFrames, EncodedAll, ChunkSize;
    var size := ChunkSize(configured, |body|);
    var frames: seq<seq<byte>> := [];
    next := sequence;
    var start := 0;
    ghost var done := 0;
    assert body[0..] == body;
    PlusPlus(sequence, 0, 0);
    NothingEncoded(next, id, size);
    assert frames + EncodedAll(ChunkFrames(next, id, Chunks(body, size))) ==
             EncodedAll(ChunkFrames(sequence, id, Chunks(body, size)));
    while start < |body|
      invariant 0 <= start && next == Plus(sequence, done)
      invariant var rest := if start < |body| then body[start..] else [];
                && frames + EncodedAll(ChunkFrames(next, id, Chunks(rest, size))) ==
                    EncodedAll(ChunkFrames(sequence, id, Chunks(body, size)))
                && done + |Chunks(rest, size)| == |Chunks(body, size)|
      invariant start > 0 ==> |id| == 36
    {
      var end := if start + size > |body| then |body| else start + size;
      ghost var rest := body[start..];
      var frame := EncodeFrame(REQUEST, 0x03, next, id, body[start..end]);
      if frame.Err? {
        return Err, next;
      }
      NextChunk(rest, size, next, id);
      assert body[start..end] == if |rest| <= size then rest else rest[..size];
      ghost var after := if start + size < |body| then body[start + size..] else [];
      assert after == if |rest| <= size then [] else rest[size..];
      ghost var more := EncodedAll(ChunkFrames(Plus(next, 1), id, Chunks(after, size)));
      assert frames + ([frame.value[..]] + more) == (frames + [frame.value[..]]) + more;
      frames := frames + [frame.value[..]];
      next := Plus(next, 1);
      PlusPlus(sequence, done, 1);
      done := done + 1;
      start := start + size;
    }
    NothingEncoded(next, id, size);
    r := Ok(frames);
  }

  lemma NothingEncoded(next: uint64, id: seq<byte>, size: nat)
    requires size > 0
    ensures Chunks([], size) == [] && ChunkFrames(next, id, []) == [] && EncodedAll([]) == []
  {
  }

  lemma NextChunk(rest: seq<byte>, size: nat, sequence: uint64, id: seq<byte>)
    requires size > 0 && rest != []
    ensures var first, after := if |rest| <= size then rest else rest[..size], if |rest| <= size then [] else
              rest[size..];
            && Chunks(rest, size) == [first] + Chunks(after, size)
            && EncodedAll(ChunkFrames(sequence, id, Chunks(rest, size)))
               == [Encoded(Frame(REQUEST, 0x03, sequence, id, first))] +
                   EncodedAll(ChunkFrames(Plus(sequence, 1), id, Chunks(after, size)))
  {
    hide Encoded, Plus;
    var first, after := if |rest| <= size then rest else rest[..size], if |rest| <= size then [] else rest[size..];
    var chunks := Chunks(rest, size);
    assert chunks == [first] + Chunks(after, size);
    assert chunks[1..] == Chunks(after, size);
    ConsEncoded(Frame(REQUEST, 0x03, sequence, id, first), ChunkFrames(Plus(sequence, 1), id, Chunks(after, size)));
  }

  lemma ConsEncoded(f: Frame, frames: seq<Frame>)
    ensures EncodedAll([f] + frames) == [Encoded(f)] + EncodedAll(frames)
  {
    hide Encoded;
  }

  lemma {:induction false} JoinedStream(frames: seq<Frame>)
    ensures Joined(EncodedAll(frames)) == Stream(frames)
  {
    hide Encoded;
    if frames == [] {
      assert EncodedAll(frames) == [];
    } else {
      JoinedStream(frames[1..]);
      ConsEncoded(frames[0], frames[1..]);
      assert [frames[0]] + frames[1..] == frames;
      assert EncodedAll(frames)[1..] == EncodedAll(frames[1..]);
    }
  }

  /** The texts of a transaction; `id` is the generated request ID, or nothing if generation failed. */
  datatype Texts = Texts(id: Option<seq<byte>>, metadata: seq<byte>, request: seq<byte>, response: seq<byte>)

  method BuildTransaction(t: Texts, sequence: uint64, chunkSize: int)
    returns (r: Result<seq<byte>>, next: uint64, frameCount: nat)
    ensures r.Ok? <==> t.id.Some? && |t.id.value| == 36
    ensures r.Ok? ==> var f := Transaction(sequence, t.id.value, t.metadata, t.request, t.response, chunkSize);
                      r.value == Stream(f) && frameCount == |f| && next == Plus(sequence, |f|)
  {
    hide Encoded, Plus, Chunks, ChunkFrames;
    r, next, frameCount := Err, sequence, 0;
    if t.id.None? {
      return;
    }
    var id := t.id.value;
    var metadata := EncodeFrame(0x01, 0x01, sequence, id, t.metadata);
    if metadata.Err? {
      return;
    }
    var request := EncodeFrame(REQUEST, 0x02, Plus(sequence, 1), id, t.request);
    if request.Err? {
      return;
    }
    var frames, after := EncodeResponseFrames(Plus(sequence, 2), id, t.response, chunkSize);
    if frames.Err? {
      return;
    }
    var completion := EncodeFrame(REQUEST, 0x63, after, id, []);
    if completion.Err? {
      return;
    }
    var first, second, last := metadata.value[..], request.value[..], completion.value[..];
    ghost var chunks := Chunks(t.response, ChunkSize(chunkSize, |t.response|));
    ghost var middle := ChunkFrames(Plus(sequence, 2), id, chunks);
    ChunkFramesNumbered(Plus(sequence, 2), id, chunks);
    PlusPlus(sequence, 2, |chunks|);
    PlusPlus(sequence, 2 + |chunks|, 1);
    ghost var f := Transaction(sequence, id, t.metadata, t.request, t.response, chunkSize);
    assert first == Encoded(f[0]) && second == Encoded(f[1]) && last == Encoded(f[|f| - 1]);
    assert f == [f[0], f[1]] + middle + [f[|f| - 1]];
    TransactionStream(f[0], f[1], middle, f[|f| - 1]);
    JoinedStream(middle);
    var bytes := first + second;
    var n := 0;
    assert Joined(frames.value[..0]) == [];
    while n < |frames.value|
      invariant n <= |frames.value|
      invariant bytes == first + second + Joined(frames.value[..n])
    {
      JoinedNext(frames.value, n);
      bytes := bytes + frames.value[n];
      n := n + 1;
    }
    assert frames.value[..n] == frames.value == EncodedAll(middle);
    bytes := bytes + last;
    return Ok(bytes), Plus(after, 1), 2 + |frames.value| + 1;
  }

  lemma TransactionStream(a: Frame, b: Frame, middle: seq<Frame>, z: Frame)
    ensures Stream([a, b] + middle + [z]) == Encoded(a) + Encoded(b) + Stream(middle) + Encoded(z)
  {
    hide Encoded;
    StreamConcat([a, b] + middle, [z]);
    StreamConcat([a, b], middle);
    assert [a, b][1..] == [b] && [b][1..] == [] && [z][1..] == [];
    assert Stream([z]) == Encoded(z) + [];
    assert Stream([b]) == Encoded(b) + [];
  }

  lemma {:induction false} JoinedNext(chunks: seq<seq<byte>>, n: nat)
    requires n < |chunks|
    ensures Joined(chunks[..n + 1]) == Joined(chunks[..n]) + chunks[n]
  {
    if n == 0 {
      assert chunks[..1] == [chunks[0]] && chunks[..1][1..] == [];
    } else {
      JoinedNext(chunks[1..], n - 1);
      assert chunks[..n + 1][1..] == chunks[1..][..n] && chunks[..n][1..] == chunks[1..][..n - 1];
    }
  }
}
