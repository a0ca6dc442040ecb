/** Round trip, incremental parsing and fragmentation of the Guacamole codec. */
module GuacamoleProperties {
  import opened Wrappers
  import opened Utf8
  import opened Guacamole

  // ---- Input that arrives later ----

  lemma {:induction false} DigitRunExtends(a: seq<byte>, b: seq<byte>)
    requires DigitRun(a) < |a|
    ensures DigitRun(a + b) == DigitRun(a)
  {
    if IsDigit(a[0]) {
      assert (a + b)[1..] == a[1..] + b;
      DigitRunExtends(a[1..], b);
    }
  }

  lemma ElementExtends(a: seq<byte>, b: seq<byte>)
    requires ElementAt(a).Element?
    ensures ElementAt(a + b) == ElementAt(a)
  {
    hide ElementBody;
    DigitRunExtends(a, b);
    ElementBodyExtends(a, b, DigitRun(a));
  }

  lemma ElementBodyExtends(a: seq<byte>, b: seq<byte>, d: nat)
    requires d < |a| && ElementBody(a, d).Element?
    ensures ElementBody(a + b, d) == ElementBody(a, d)
  {
    hide RunesEnd, Number;
    assert (a + b)[..d] == a[..d];
    assert (a + b)[d + 1..] == a[d + 1..] + b;
    RunesEndExtends(a[d + 1..], b, Number(a[..d]));
  }

  lemma {:induction false} GroupExtends(a: seq<byte>, b: seq<byte>)
    requires InstructionAt(a).Group?
    ensures InstructionAt(a + b) == InstructionAt(a)
    decreases |a|
  {
    hide ElementAt;
    ElementExtends(a, b);
    var size := ElementAt(a).size;
    assert (a + b)[size..] == a[size..] + b;
    if ElementAt(a).separator == COMMA {
      GroupExtends(a[size..], b);
    }
  }

  /** Parsing what has arrived and later parsing the remainder with whatever follows is parsing
      the whole, for every byte sequence and every cut that was not rejected. */
  lemma {:induction false} Incremental(a: seq<byte>, b: seq<byte>)
    requires Parse(a).Ok?
    ensures Parse(a + b) == AfterItems(Parse(a).value.items, Parse(Parse(a).value.rest + b))
    decreases |a|
  {
    hide InstructionAt, ElementAt;
    if a == [] || InstructionAt(a).ShortGroup? {
      assert Parse(a).value == Parsed([], a);
      NoItems(Parse(a + b));
    } else {
      var g := InstructionAt(a);
      GroupExtends(a, b);
      ParseGroup(a);
      ParseGroup(a + b);
      assert (a + b)[g.size..] == a[g.size..] + b;
      Incremental(a[g.size..], b);
      var p := Parse(a[g.size..]).value;
      AfterItemsTwice([Instruction(g.values[0], g.values[1..])], p.items, Parse(p.rest + b));
    }
  }

  lemma NoItems(r: Result<Parsed>)
    ensures AfterItems([], r) == r
  {
    if r.Ok? {
      assert [] + r.value.items == r.value.items;
    }
  }

  // ---- The read loop ----

  datatype Reader = Reader(delivered: seq<Instruction>, remainder: seq<byte>, failed: bool)

  function Receive(r: Reader, body: seq<byte>): Reader {
    if r.failed then r else
      match Parse(r.remainder + body)
      case Err => r.(failed := true)
      case Ok(p) => Reader(r.delivered + p.items, p.rest, false)
  }

  function ReceiveAll(chunks: seq<seq<byte>>): Reader {
    if chunks == [] then Reader([], [], false)
    else Receive(ReceiveAll(chunks[..|chunks| - 1]), chunks[|chunks| - 1])
  }

  /** The goroutine that reads messages, parses remainder and message together and keeps the rest. */
  method ReadLoop(chunks: seq<seq<byte>>) returns (r: Reader)
    ensures r == ReceiveAll(chunks)
  {
    var remainder: seq<byte>, delivered: seq<Instruction> := [], [];
    var index := 0;
    while index < |chunks|
      invariant index <= |chunks|
      invariant ReceiveAll(chunks[..index]) == Reader(delivered, remainder, false)
    {
      assert chunks[..index + 1][..index] == chunks[..index];
      var combined := remainder + chunks[index];
      var parsed := ParseInstructions(combined);
      if parsed.Err? {
        StaysFailed(chunks, index + 1);
        return Reader(delivered, remainder, true);
      }
      remainder := parsed.value.rest;
      delivered := delivered + parsed.value.items;
      index := index + 1;
    }
    assert chunks[..index] == chunks;
    return Reader(delivered, remainder, false);
  }

  lemma {:induction false} StaysFailed(chunks: seq<seq<byte>>, n: nat)
    requires n <= |chunks| && ReceiveAll(chunks[..n]).failed
    ensures ReceiveAll(chunks) == ReceiveAll(chunks[..n])
    decreases |chunks|
  {
    if n == |chunks| {
      assert chunks[..n] == chunks;
    } else {
      var front := chunks[..|chunks| - 1];
      assert front[..n] == chunks[..n];
      StaysFailed(front, n);
    }
  }

  function Flatten(chunks: seq<seq<byte>>): seq<byte> {
    if chunks == [] then [] else Flatten(chunks[..|chunks| - 1]) + chunks[|chunks| - 1]
  }

  /** What has arrived after the first `n` messages. */
  function Arrived(chunks: seq<seq<byte>>, n: nat): seq<byte>
    requires n <= |chunks|
  {
    Flatten(chunks[..n])
  }

  /** The reader fails exactly when what has arrived at some message boundary is itself rejected;
      otherwise it has delivered, and kept, what parsing the whole stream gives. */
  lemma {:induction false} ReaderParsesTheStream(chunks: seq<seq<byte>>)
    ensures ReceiveAll(chunks).failed <==> exists n :: 0 <= n <= |chunks| && Parse(Arrived(chunks, n)).Err?
    ensures !ReceiveAll(chunks).failed ==>
              Parse(Flatten(chunks)) == Ok(Parsed(ReceiveAll(chunks).delivered, ReceiveAll(chunks).remainder))
  {
    hide InstructionAt;
    assert chunks[..|chunks|] == chunks;
    if chunks != [] {
      var front, body := chunks[..|chunks| - 1], chunks[|chunks| - 1];
      ReaderParsesTheStream(front);
      forall n | 0 <= n <= |front|
        ensures Arrived(front, n) == Arrived(chunks, n)
      {
        assert front[..n] == chunks[..n];
      }
      var before := ReceiveAll(front);
      if !before.failed {
        Incremental(Flatten(front), body);
        assert Arrived(chunks, |chunks|) == Flatten(front) + body;
      } else {
        var n :| 0 <= n <= |front| && Parse(Arrived(front, n)).Err?;
        assert Parse(Arrived(chunks, n)).Err?;
      }
    }
  }
}
