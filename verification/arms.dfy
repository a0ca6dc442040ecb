/** The ARMS frame codec: framed transactions whose response is chunked and whose frames are numbered. */
module Arms {
  import opened Wrappers
  import opened Utf8

  // ---- Numbers, most significant byte first ----

  function Pow(w: nat): (p: nat)
    ensures p > 0
  {
    if w == 0 then 1 else 256 * Pow(w - 1)
  }

  function BigEndian(n: nat, w: nat): (r: seq<byte>)
    ensures |r| == w
  {
    if w == 0 then [] else BigEndian(n / 256, w - 1) + [n % 256]
  }

  function FromBigEndian(s: seq<byte>): nat {
    if s == [] then 0 else 256 * FromBigEndian(s[..|s| - 1]) + s[|s| - 1]
  }

  lemma {:induction false} BigEndianInverse(n: nat, w: nat)
    requires n < Pow(w)
    ensures FromBigEndian(BigEndian(n, w)) == n
  {
    if w > 0 {
      BigEndianInverse(n / 256, w - 1);
      assert BigEndian(n, w)[..w - 1] == BigEndian(n / 256, w - 1);
    }
  }

  const UINT64 := 0x1_0000_0000_0000_0000

  type uint64 = n: nat | n < UINT64

  lemma EightBytes()
    ensures Pow(8) == UINT64
  {
    assert Pow(2) == 0x1_0000;
    assert Pow(4) == 0x1_0000 * 0x1_0000;
    assert Pow(6) == 0x1_0000 * Pow(4);
  }

  /** Addition of uint64 values wraps around. */
  function Plus(s: uint64, k: nat): uint64 { (s + k) % UINT64 }

  lemma PlusPlus(s: uint64, j: nat, k: nat)
    ensures Plus(Plus(s, j), k) == Plus(s, j + k)
    ensures Plus(s, 0) == s
  {
  }

  // ---- Frames ----

  const HEADER := 72
  const MAGIC: seq<byte> := [97, 114, 109, 115]

  datatype Frame = Frame(messageType: byte, subtype: byte, sequence: uint64, requestID: seq<byte>, body: seq<byte>)

  predicate Encodable(f: Frame) { |f.requestID| == 36 && |f.body| < UINT64 }

  function Zeros(n: nat): (r: seq<byte>)
    ensures |r| == n
  {
    seq(n, i => 0)
  }

  function Encoded(f: Frame): seq<byte> {
    MAGIC + (BigEndian(1, 2) + ([f.messageType, f.subtype] + (BigEndian(f.sequence, 8) + (f.requestID +
    (BigEndian(|f.body|, 8) + (Zeros(12) + f.body))))))
  }

  /** Read one frame by its length field. */
  function Decode(b: seq<byte>): Option<(Frame, seq<byte>)> {
    if |b| < HEADER || b[..4] != MAGIC || b[4..6] != BigEndian(1, 2) then None
    else
      var length, sequence := FromBigEndian(b[52..60]), FromBigEndian(b[8..16]);
      if |b| < HEADER + length || sequence >= UINT64 then None
      else Some((Frame(b[6], b[7], sequence, b[16..52], b[HEADER..HEADER + length]), b[HEADER + length..]))
  }

  lemma Regroup(a: seq<byte>, b: seq<byte>, c: seq<byte>)
    ensures (a + b) + c == a + (b + c)
  {
  }

  lemma Field(b: seq<byte>, field: seq<byte>, rest: seq<byte>)
    requires b == field + rest
    ensures b[..|field|] == field && b[|field|..] == rest
  {
  }

  lemma At(b: seq<byte>, at: nat, n: nat)
    requires at + n <= |b|
    ensures b[at..][..n] == b[at..at + n] && b[at..][n..] == b[at + n..]
  {
  }

  lemma FrameLayout(f: Frame, rest: seq<byte>)
    requires Encodable(f)
    ensures var b := Encoded(f) + rest;
            && |b| == HEADER + |f.body| + |rest|
            && b[..4] == MAGIC && b[4..6] == BigEndian(1, 2) && b[6] == f.messageType && b[7] == f.subtype
            && b[8..16] == BigEndian(f.sequence, 8) && b[16..52] == f.requestID && b[52..60] == BigEndian(|f.body|, 8)
            && b[HEADER..HEADER + |f.body|] == f.body && b[HEADER + |f.body|..] == rest
  {
    hide BigEndian, Zeros;
    var b := Encoded(f) + rest;
    var v, s, l, z, head := BigEndian(1, 2), BigEndian(f.sequence, 8), BigEndian(|f.body|, 8), Zeros(12),
          [f.messageType, f.subtype];
    var t7 := f.body + rest;
    var t6 := z + t7;
    var t5 := l + t6;
    var t4 := f.requestID + t5;
    var t3 := s + t4;
    var t2 := head + t3;
    var t1 := v + t2;
    Regroup(z, f.body, rest);
    Regroup(l, z + f.body, rest);
    Regroup(f.requestID, l + (z + f.body), rest);
    Regroup(s, f.requestID + (l + (z + f.body)), rest);
    Regroup(head, s + (f.requestID + (l + (z + f.body))), rest);
    Regroup(v, head + (s + (f.requestID + (l + (z + f.body)))), rest);
    Regroup(MAGIC, v + (head + (s + (f.requestID + (l + (z + f.body))))), rest);
    assert b == MAGIC + t1;
    Field(b, MAGIC, t1);
    At(b, 4, 2);
    Field(t1, v, t2);
    At(b, 6, 2);
    Field(t2, head, t3);
    At(b, 8, 8);
    Field(t3, s, t4);
    At(b, 16, 36);
    Field(t4, f.requestID, t5);
    At(b, 52, 8);
    Field(t5, l, t6);
    At(b, 60, 12);
    Field(t6, z, t7);
    At(b, HEADER, |f.body|);
    Field(t7, f.body, rest);
    assert b[6] == b[6..][0] && b[7] == b[6..][1];
  }

  /** Whatever follows it, an encoded frame is decoded to itself. */
  lemma FrameDecodes(f: Frame, rest: seq<byte>)
    requires Encodable(f)
    ensures Decode(Encoded(f) + rest) == Some((f, rest))
  {
    hide Encoded, BigEndian, FromBigEndian, Pow;
    FrameLayout(f, rest);
    EightBytes();
    BigEndianInverse(f.sequence, 8);
    BigEndianInverse(|f.body|, 8);
  }

  function Stream(frames: seq<Frame>): seq<byte> {
    if frames == [] then [] else Encoded(frames[0]) + Stream(frames[1..])
  }

  /** Decode frames until the bytes are used up. */
  function DecodeAll(b: seq<byte>): Option<seq<Frame>>
    decreases |b|
  {
    if b == [] then Some([])
    else
      match Decode(b)
      case None => None
      case Some((f, rest)) =>
        match DecodeAll(rest)
        case None => None
        case Some(frames) => Some([f] + frames)
  }

  /** A stream of frames is decoded to exactly those frames. */
  lemma {:induction false} StreamDecodes(frames: seq<Frame>)
    requires forall f :: f in frames ==> Encodable(f)
    ensures DecodeAll(Stream(frames)) == Some(frames)
  {
    hide Encoded, Decode;
    if frames != [] {
      assert frames[0] in frames && forall f :: f in frames[1..] ==> f in frames;
      StreamDecodes(frames[1..]);
      FrameDecodes(frames[0], Stream(frames[1..]));
      EncodedNotEmpty(frames[0]);
      DecodeStep(Stream(frames), frames[0], Stream(frames[1..]));
      assert [frames[0]] + frames[1..] == frames;
    }
  }

  lemma EncodedNotEmpty(f: Frame)
    ensures Encoded(f) != []
  {
  }

  lemma DecodeStep(b: seq<byte>, f: Frame, rest: seq<byte>)
    requires b != [] && Decode(b) == Some((f, rest))
    ensures DecodeAll(b) == match DecodeAll(rest) case None => None case Some(frames) => Some([f] + frames)
  {
    hide Decode;
  }

  lemma {:induction false} StreamConcat(a: seq<Frame>, b: seq<Frame>)
    ensures Stream(a + b) == Stream(a) + Stream(b)
  {
    hide Encoded;
    if a == [] {
      assert a + b == b;
    } else {
      assert (a + b)[1..] == a[1..] + b;
      StreamConcat(a[1..], b);
    }
  }

  // ---- Encoding in place ----

  function Overwritten(s: seq<byte>, at: nat, source: seq<byte>): seq<byte>
    requires at + |source| <= |s|
  {
    s[..at] + source + s[at + |source|..]
  }

  /** copy(target[at:], source) */
  method Put(target: array<byte>, at: nat, source: seq<byte>)
    requires at + |source| <= target.Length
    modifies target
    ensures target[..] == Overwritten(old(target[..]), at, source)
  {
    for k := 0 to |source|
      invariant forall i :: 0 <= i < k ==> target[at + i] == source[i]
      invariant forall i :: 0 <= i < target.Length && !(at <= i < at + k) ==> target[i] == old(target[i])
    {
      target[at + k] := source[k];
    }
  }

  lemma OverwriteZeros(done: seq<byte>, n: nat, source: seq<byte>)
    requires |source| <= n
    ensures Overwritten(done + Zeros(n), |done|, source) == done + source + Zeros(n - |source|)
  {
  }

  method EncodeFrame(messageType: byte, subtype: byte, sequence: uint64, requestID: seq<byte>, body: seq<byte>)
    returns (r: Result<array<byte>>)
    ensures r.Ok? <==> |requestID| == 36
    ensures r.Ok? ==> fresh(r.value) && r.value[..] == Encoded(Frame(messageType, subtype, sequence, requestID, body))
  {
    hide BigEndian, Zeros, Overwritten;
    if |requestID| != 36 {
      return Err;
    }
    var n := HEADER + |body|;
    var frame := new byte[n](i => 0);
    NewZeros(frame[..]);
    var v, s, l := BigEndian(1, 2), BigEndian(sequence, 8), BigEndian(|body|, 8);
    Put(frame, 0, MAGIC);
    OverwriteZeros([], n, MAGIC);
    assert [] + Zeros(n) == Zeros(n);
    assert [] + MAGIC == MAGIC;
    Put(frame, 4, v);
    OverwriteZeros(MAGIC, n - 4, v);
    var head := [messageType, subtype];
    Put(frame, 6, head);
    OverwriteZeros(MAGIC + v, n - 6, head);
    Put(frame, 8, s);
    OverwriteZeros(MAGIC + v + head, n - 8, s);
    Put(frame, 16, requestID);
    OverwriteZeros(MAGIC + v + head + s, n - 16, requestID);
    Put(frame, 52, l);
    ghost var front := MAGIC + v + head + s + requestID;
    OverwriteZeros(front, n - 52, l);
    Put(frame, HEADER, body);
    ZerosSplit(12, |body|);
    Regroup(front + l, Zeros(12), Zeros(|body|));
    OverwriteZeros(front + l + Zeros(12), |body|, body);
    ZerosSplit(0, 0);
    assert front + l + Zeros(12) + body + Zeros(0) == front + l + Zeros(12) + body;
    Nested(v, head, s, requestID, l, Zeros(12), body);
    return Ok(frame);
  }

  lemma Nested(v: seq<byte>, head: seq<byte>, s: seq<byte>, id: seq<byte>, l: seq<byte>, z: seq<byte>, body: seq<byte>)
    ensures MAGIC + v + head + s + id + l + z + body == MAGIC + (v + (head + (s + (id + (l + (z + body))))))
  {
    var m := MAGIC;
    Regroup(m, v, head + (s + (id + (l + (z + body)))));
    Regroup(m + v, head, s + (id + (l + (z + body))));
    Regroup(m + v + head, s, id + (l + (z + body)));
    Regroup(m + v + head + s, id, l + (z + body));
    Regroup(m + v + head + s + id, l, z + body);
    Regroup(m + v + head + s + id + l, z, body);
  }

  lemma NewZeros(s: seq<byte>)
    requires forall i :: 0 <= i < |s| ==> s[i] == 0
    ensures s == Zeros(|s|)
  {
  }

  lemma ZerosSplit(a: nat, b: nat)
    ensures Zeros(a + b) == Zeros(a) + Zeros(b) && Zeros(0) == []
  {
  }

  // ---- The layout, byte by byte ----

  lemma {:induction false} BigEndianAt(n: nat, w: nat, k: nat)
    requires k < w
    ensures BigEndian(n, w)[k] as int == n / Pow(w - 1 - k) % 256
  {
    if k < w - 1 {
      BigEndianAt(n / 256, w - 1, k);
      Quotients(n, Pow(w - 2 - k));
      assert BigEndian(n, w)[k] == BigEndian(n / 256, w - 1)[k];
    }
  }

  lemma Quotients(n: nat, p: nat)
    requires p > 0
    ensures n / 256 / p == n / (256 * p)
  {
    var q := n / (256 * p);
    var r := n % (256 * p);
    assert n == q * (256 * p) + r && 0 <= r < 256 * p;
    assert n / 256 == q * p + r / 256;
    assert r / 256 < p;
    DivideSum(q, p, r / 256);
  }

  lemma DivideSum(q: nat, p: nat, r: nat)
    requires p > 0 && r < p
    ensures (q * p + r) / p == q
  {
    var d := (q * p + r) / p;
    if d < q {
      Products(d + 1, q, p);
    } else if d > q {
      Products(q + 1, d, p);
    }
  }

  lemma Products(a: nat, b: nat, p: nat)
    requires a <= b
    ensures a * p <= b * p
  {
  }

  /** "arms", version 1, type, subtype, number, request ID, length of the body and twelve zeros, then the body;
      numbers with their most significant byte first. */
  lemma FrameBytes(f: Frame)
    requires Encodable(f)
    ensures var b := Encoded(f);
            && |b| == 72 + |f.body| && b[0..6] == [97, 114, 109, 115, 0, 1] && b[6] == f.messageType
            && b[7] == f.subtype && b[16..52] == f.requestID && b[72..] == f.body
            && (forall k :: 8 <= k < 16 ==> b[k] as int == f.sequence / Pow(15 - k) % 256)
            && (forall k :: 52 <= k < 60 ==> b[k] as int == |f.body| / Pow(59 - k) % 256)
            && (forall k :: 60 <= k < 72 ==> b[k] == 0)
  {
    hide BigEndian, Encoded, Pow;
    var b := Encoded(f);
    assert b + [] == b;
    FrameLayout(f, []);
    VersionBytes();
    assert b[0..6] == b[..4] + b[4..6];
    assert b[72..] == b[72..72 + |f.body|];
    forall k | 8 <= k < 16 ensures b[k] as int == f.sequence / Pow(15 - k) % 256 {
      BigEndianAt(f.sequence, 8, k - 8);
      assert b[k] == b[8..16][k - 8];
    }
    forall k | 52 <= k < 60 ensures b[k] as int == |f.body| / Pow(59 - k) % 256 {
      BigEndianAt(|f.body|, 8, k - 52);
      assert b[k] == b[52..60][k - 52];
    }
    ReservedZeros(f);
  }

  lemma VersionBytes()
    ensures BigEndian(1, 2) == [0, 1]
  {
    assert BigEndian(1, 2) == BigEndian(0, 1) + [1];
    assert BigEndian(0, 1) == BigEndian(0, 0) + [0];
  }

  lemma ReservedZeros(f: Frame)
    requires Encodable(f)
    ensures |Encoded(f)| >= 72 && forall k :: 60 <= k < 72 ==> Encoded(f)[k] == 0
  {
    hide BigEndian;
    var front := MAGIC + BigEndian(1, 2) + [f.messageType, f.subtype] + BigEndian(f.sequence, 8) + f.requestID
                 + BigEndian(|f.body|, 8);
    assert |front| == 60;
    assert Encoded(f) == front + Zeros(12) + f.body;
  }
}
