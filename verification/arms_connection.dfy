/** One connection: transactions and heartbeats written out, short writes and errors included. */
module ArmsConnections {
  import opened Wrappers
  import opened Utf8
  import opened Arms
  import opened ArmsTransactions

  /** What one Write call takes of what it is offered, and whether it reports an error. */
  datatype WriteAnswer = WriteAnswer(count: nat, failed: bool)

  /** `refused` says which deadlines cannot be set, the later ones all can; `failures` counts these and the
      Write calls that reported an error or took nothing. */
  class Connection {
    var wire: seq<byte>
    var answers: seq<WriteAnswer>
    var refused: seq<bool>
    var failures: nat

    constructor (answers: seq<WriteAnswer>, refused: seq<bool>)
      ensures wire == [] && this.answers == answers && this.refused == refused && failures == 0
    {
      wire := [];
      this.answers, this.refused := answers, refused;
      failures := 0;
    }

    /** Set the deadline for the writes to come. */
    method SetWriteDeadline() returns (ok: bool)
      modifies this
      ensures ok <==> old(refused) == [] || !old(refused)[0]
      ensures wire == old(wire) && failures == old(failures) + if ok then 0 else 1
    {
      ok := refused == [] || !refused[0];
      refused := if refused == [] then [] else refused[1..];
      failures := failures + if ok then 0 else 1;
    }

    /** Write at most what is offered; once no answer is left the connection is broken. */
    method Write(p: seq<byte>) returns (count: nat, failed: bool)
      modifies this
      ensures count <= |p| && wire == old(wire) + p[..count]
      ensures failures == old(failures) + if failed || count == 0 then 1 else 0
    {
      if answers == [] {
        count, failed := 0, true;
      } else {
        count, failed := if answers[0].count < |p| then answers[0].count else |p|, answers[0].failed;
        answers := answers[1..];
      }
      wire := wire + p[..count];
      failures := failures + if failed || count == 0 then 1 else 0;
    }
  }

  /** All of the payload in order, or some beginning of it, exactly when the deadline could not be set or a Write
      failed or took nothing. */
  method WritePayload(c: Connection, payload: seq<byte>) returns (ok: bool, ghost written: nat)
    modifies c
    ensures written <= |payload| && c.wire == old(c.wire) + payload[..written]
    ensures ok ==> written == |payload|
    ensures c.failures == old(c.failures) + if ok then 0 else 1
  {
    written := 0;
    var limited := c.SetWriteDeadline();
    if !limited {
      return false, written;
    }
    var n := 0;
    while n < |payload|
      invariant n == written <= |payload| && c.wire == old(c.wire) + payload[..written]
      invariant c.failures == old(c.failures)
      decreases |payload| - n
    {
      var count, failed := c.Write(payload[n..]);
      assert payload[..n] + payload[n..][..count] == payload[..n + count];
      n := n + count;
      written := n;
      if failed || count == 0 {
        return false, written;
      }
    }
    ok := true;
  }

  function Heartbeat(): Frame { Frame(0, 0, 0, Zeros(36), []) }

  method EncodeHeartbeat() returns (r: array<byte>)
    ensures fresh(r) && r[..] == Encoded(Heartbeat())
  {
    hide BigEndian, Zeros, Overwritten;
    r := new byte[HEADER](i => 0);
    NewZeros(r[..]);
    var v := BigEndian(1, 2);
    Put(r, 0, MAGIC);
    OverwriteZeros([], HEADER, MAGIC);
    assert [] + Zeros(HEADER) == Zeros(HEADER) && [] + MAGIC == MAGIC;
    Put(r, 4, v);
    OverwriteZeros(MAGIC, HEADER - 4, v);
    HeartbeatLayout();
  }

  lemma {:induction false} BigEndianZero(w: nat)
    ensures BigEndian(0, w) == Zeros(w)
  {
    if w > 0 {
      BigEndianZero(w - 1);
      ZerosSplit(w - 1, 1);
      assert Zeros(1) == [0];
    }
  }

  lemma HeartbeatLayout()
    ensures MAGIC + BigEndian(1, 2) + Zeros(66) == Encoded(Heartbeat())
  {
    hide BigEndian, Zeros;
    var v := BigEndian(1, 2);
    BigEndianZero(8);
    Nested(v, [0, 0], Zeros(8), Zeros(36), Zeros(8), Zeros(12), []);
    TwoZeros();
    ZerosSplit(2, 8);
    ZerosSplit(10, 36);
    ZerosSplit(46, 8);
    ZerosSplit(54, 12);
    var m := MAGIC + v;
    Regroup(m, [0, 0], Zeros(8));
    Regroup(m, Zeros(10), Zeros(36));
    Regroup(m, Zeros(46), Zeros(8));
    Regroup(m, Zeros(54), Zeros(12));
    assert m + Zeros(66) + [] == m + Zeros(66);
  }

  lemma TwoZeros()
    ensures Zeros(2) == [0, 0]
  {
  }

  /** What the worker does next: stop, send a heartbeat, or send a transaction. */
  datatype Turn = Stop | Beat | Send(texts: Texts)

  /** The numbered frames: everything but heartbeats. */
  function NumberedFrames(frames: seq<Frame>): seq<Frame> {
    if frames == [] then []
    else NumberedFrames(frames[..|frames| - 1]) + if frames[|frames| - 1].messageType != 0 then
        [frames[|frames| - 1]] else []
  }

  lemma {:induction false} NumberedConcat(a: seq<Frame>, b: seq<Frame>)
    ensures NumberedFrames(a + b) == NumberedFrames(a) + NumberedFrames(b)
  {
    if b == [] {
      assert a + b == a;
    } else {
      assert (a + b)[..|a + b| - 1] == a + b[..|b| - 1];
      NumberedConcat(a, b[..|b| - 1]);
    }
  }

  lemma {:induction false} AllNumbered(frames: seq<Frame>)
    requires forall k :: 0 <= k < |frames| ==> frames[k].messageType != 0
    ensures NumberedFrames(frames) == frames
  {
    if frames != [] {
      AllNumbered(frames[..|frames| - 1]);
    }
  }

  lemma ConsecutiveConcat(a: seq<Frame>, b: seq<Frame>, s: uint64)
    requires Consecutive(a, s) && Consecutive(b, Plus(s, |a|))
    ensures Consecutive(a + b, s)
  {
    hide Plus;
    forall k | |a| <= k < |a| + |b| ensures (a + b)[k].sequence == Plus(s, k) {
      PlusPlus(s, |a|, k - |a|);
      assert (a + b)[k] == b[k - |a|];
    }
  }

  predicate FitTexts(t: Texts) {
    |t.metadata| < UINT64 && |t.request| < UINT64 && |t.response| < UINT64
  }

  // ---- What a connection is to send ----

  predicate Buildable(t: Texts) { t.id.Some? && |t.id.value| == 36 }

  /** The frames of one turn that starts at `sequence`. */
  function FramesOf(turn: Turn, sequence: uint64, chunkSize: int): seq<Frame> {
    match turn
    case Stop => []
    case Beat => [Heartbeat()]
    case Send(t) =>
      if Buildable(t) then Transaction(sequence, t.id.value, t.metadata, t.request, t.response, chunkSize) else []
  }

  /** All frames of the first turns, and the sequence number after them. */
  datatype Sent = Sent(frames: seq<Frame>, sequence: uint64)

  function SentBy(turns: seq<Turn>, k: nat, chunkSize: int): Sent
    requires k <= |turns|
  {
    if k == 0 then Sent([], 1)
    else
      var before := SentBy(turns, k - 1, chunkSize);
      var frames := FramesOf(turns[k - 1], before.sequence, chunkSize);
      Sent(before.frames + frames, if turns[k - 1].Send? then Plus(before.sequence, |frames|) else before.sequence)
  }

  predicate FitTurns(turns: seq<Turn>) {
    forall t :: t in turns && t.Send? ==> FitTexts(t.texts)
  }

  /** Frames that decode, the numbered ones numbered without gap from 1. */
  predicate Sound(frames: seq<Frame>) {
    (forall f :: f in frames ==> Encodable(f)) && Consecutive(NumberedFrames(frames), 1)
  }

  /** One more turn, sent or being sent, keeps the numbering without gap. */
  lemma TurnSound(frames: seq<Frame>, turn: Turn, chunkSize: int)
    requires Sound(frames) && (turn.Send? ==> FitTexts(turn.texts))
    ensures var sequence := Plus(1, |NumberedFrames(frames)|);
            var more := FramesOf(turn, sequence, chunkSize);
            && Sound(frames + more)
            && Plus(1, |NumberedFrames(frames + more)|) == if turn.Send? then Plus(sequence, |more|) else sequence
  {
    hide Transaction, Plus, Consecutive, FitTexts;
    var sequence := Plus(1, |NumberedFrames(frames)|);
    PlusPlus(sequence, 0, 0);
    assert frames + [] == frames;
    match turn
    case Stop =>
    case Beat => HeartbeatSound(frames);
    case Send(t) =>
      if Buildable(t) {
        TransactionSound(frames, t, chunkSize);
      }
  }

  lemma TransactionSound(frames: seq<Frame>, t: Texts, chunkSize: int)
    requires Sound(frames) && FitTexts(t) && Buildable(t)
    ensures var sequence := Plus(1, |NumberedFrames(frames)|);
            var more := FramesOf(Send(t), sequence, chunkSize);
            Sound(frames + more) && Plus(1, |NumberedFrames(frames + more)|) == Plus(sequence, |more|)
  {
    hide Transaction, Plus, Consecutive, FitTexts, NumberedFrames;
    var sequence := Plus(1, |NumberedFrames(frames)|);
    var more := Transaction(sequence, t.id.value, t.metadata, t.request, t.response, chunkSize);
    TransactionFrames(sequence, t.id.value, t.metadata, t.request, t.response, chunkSize);
    TransactionEncodable(sequence, t, chunkSize);
    AllNumbered(more);
    NumberedConcat(frames, more);
    ConsecutiveConcat(NumberedFrames(frames), more, 1);
    PlusPlus(1, |NumberedFrames(frames)|, |more|);
    assert forall f :: f in frames + more ==> f in frames || f in more;
  }

  /** Across all turns the numbered frames carry 1, 2, 3 and on without gap, modulo 2^64, and a receiver
      decodes exactly the frames of the turns. */
  lemma {:induction false} SentSound(turns: seq<Turn>, k: nat, chunkSize: int)
    requires k <= |turns| && FitTurns(turns)
    ensures var s := SentBy(turns, k, chunkSize);
            && Sound(s.frames) && s.sequence == Plus(1, |NumberedFrames(s.frames)|)
            && DecodeAll(Stream(s.frames)) == Some(s.frames)
  {
    hide Plus, Stream, FramesOf, DecodeAll, FitTexts, Consecutive;
    if k == 0 {
      NothingSent();
      PlusPlus(1, 0, 0);
    } else {
      SentSound(turns, k - 1, chunkSize);
      TurnSound(SentBy(turns, k - 1, chunkSize).frames, turns[k - 1], chunkSize);
    }
    StreamDecodes(SentBy(turns, k, chunkSize).frames);
  }

  // ---- Sending it ----

  /** The transaction of these texts is written and the sequence advanced by its frames, before it is known
      whether the write succeeds; without a proper request ID nothing is written. */
  method SendTransaction(c: Connection, t: Texts, chunkSize: int, sequence: uint64)
    returns (ok: bool, next: uint64, ghost sent: seq<Frame>, ghost written: nat)
    modifies c
    ensures sent == FramesOf(Send(t), sequence, chunkSize) && next == Plus(sequence, |sent|)
    ensures written <= |Stream(sent)| && c.wire == old(c.wire) + Stream(sent)[..written]
    ensures ok ==> Buildable(t) && written == |Stream(sent)|
    ensures c.failures == old(c.failures) + if ok || !Buildable(t) then 0 else 1
  {
    hide Stream, Encoded, Transaction, Plus;
    sent, written := [], 0;
    PlusPlus(sequence, 0, 0);
    var built, after, count := BuildTransaction(t, sequence, chunkSize);
    next := sequence;
    if built.Err? {
      return false, next, sent, written;
    }
    sent := Transaction(sequence, t.id.value, t.metadata, t.request, t.response, chunkSize);
    next := after;
    ok, written := WritePayload(c, built.value);
  }

  lemma TransactionEncodable(sequence: uint64, t: Texts, chunkSize: int)
    requires t.id.Some? && |t.id.value| == 36 && FitTexts(t)
    ensures forall f :: f in Transaction(sequence, t.id.value, t.metadata, t.request, t.response, chunkSize) ==>
              Encodable(f)
  {
    hide Chunks, Plus, ChunkFrames, Joined;
    var size := ChunkSize(chunkSize, |t.response|);
    var chunks := Chunks(t.response, size);
    ChunksMakeUp(t.response, size);
    ChunkFramesNumbered(Plus(sequence, 2), t.id.value, chunks);
    ChunksFit(t.response, size);
    var middle := ChunkFrames(Plus(sequence, 2), t.id.value, chunks);
    forall f | f in middle ensures Encodable(f) {
      var k :| 0 <= k < |middle| && middle[k] == f;
      assert |chunks[k]| <= |t.response|;
    }
  }

  lemma {:induction false} ChunksFit(body: seq<byte>, size: nat)
    requires size > 0
    ensures forall k :: 0 <= k < |Chunks(body, size)| ==> |Chunks(body, size)[k]| <= |body|
    decreases |body|
  {
    if |body| > size {
      ChunksFit(body[size..], size);
    }
  }

  /** Serve a connection: `k` turns are sent in full. Without an error these are all turns up to a Stop. After
      one, which a deadline, a Write or a missing request ID must have caused, the wire carries some beginning
      of the next turn as well. By SentSound a receiver decodes the frames, numbered without gap. */
  method ServeConnection(c: Connection, turns: seq<Turn>, chunkSize: int)
    returns (ok: bool, k: nat, ghost last: seq<Frame>, ghost written: nat)
    modifies c
    ensures k <= |turns| && (forall j :: 0 <= j < k ==> turns[j].Beat? || (turns[j].Send? && Buildable(turns[j].texts)))
    ensures written <= |Stream(last)|
    ensures c.wire == old(c.wire) + Stream(SentBy(turns, k, chunkSize).frames) + Stream(last)[..written]
    ensures ok ==> (k == |turns| || turns[k].Stop?) && last == [] && c.failures == old(c.failures)
    ensures !ok ==> k < |turns| && !turns[k].Stop?
    ensures !ok ==> last == FramesOf(turns[k], SentBy(turns, k, chunkSize).sequence, chunkSize)
    ensures !ok ==> c.failures > old(c.failures) || (turns[k].Send? && !Buildable(turns[k].texts))
  {
    hide Stream, Encoded, Plus, Transaction;
    var sequence: uint64 := 1;
    last, written := [], 0;
    NothingSent();
    ok := true;
    k := 0;
    while k < |turns|
      invariant k <= |turns| && sequence == SentBy(turns, k, chunkSize).sequence
      invariant forall j :: 0 <= j < k ==> turns[j].Beat? || (turns[j].Send? && Buildable(turns[j].texts))
      invariant c.wire == old(c.wire) + Stream(SentBy(turns, k, chunkSize).frames)
      invariant c.failures == old(c.failures) && ok
    {
      ghost var before := SentBy(turns, k, chunkSize).frames;
      match turns[k] {
        case Stop =>
          assert c.wire + Stream([])[..0] == c.wire;
          return true, k, [], 0;
        case Beat =>
          var beat := EncodeHeartbeat();
          StreamOne(Heartbeat());
          last := [Heartbeat()];
          ok, written := WritePayload(c, beat[..]);
        case Send(texts) =>
          ok, sequence, last, written := SendTransaction(c, texts, chunkSize, sequence);
      }
      if !ok {
        return ok, k, last, written;
      }
      WholeStream(old(c.wire), before, last);
      k := k + 1;
    }
    last, written := [], 0;
    assert c.wire + Stream([])[..0] == c.wire;
  }

  lemma NothingSent()
    ensures Sound([]) && Stream([]) == [] && NumberedFrames([]) == []
  {
  }

  lemma StreamOne(f: Frame)
    ensures Stream([f]) == Encoded(f)
  {
    hide Encoded;
    assert [f][1..] == [];
    assert Stream([f]) == Encoded(f) + [];
  }

  /** A heartbeat can be sent at any time: it carries no number. */
  lemma HeartbeatSound(frames: seq<Frame>)
    requires Sound(frames)
    ensures Sound(frames + [Heartbeat()]) && NumberedFrames(frames + [Heartbeat()]) == NumberedFrames(frames)
  {
    hide Consecutive;
    assert (frames + [Heartbeat()])[..|frames|] == frames;
    assert NumberedFrames(frames) + [] == NumberedFrames(frames);
    assert Encodable(Heartbeat());
  }

  lemma WholeStream(wire: seq<byte>, frames: seq<Frame>, more: seq<Frame>)
    ensures wire + Stream(frames) + Stream(more) == wire + Stream(frames + more)
    ensures Stream(more)[..|Stream(more)|] == Stream(more)
    ensures wire + Stream(frames + more) + Stream([])[..0] == wire + Stream(frames + more)
  {
    StreamConcat(frames, more);
    Regroup(wire, Stream(frames), Stream(more));
  }
}
