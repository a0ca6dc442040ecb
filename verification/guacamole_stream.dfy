/** Encoded instruction streams: they parse back, and they may be cut anywhere except directly
    behind the comma between two elements. */
module GuacamoleStream {
  import opened Wrappers
  import opened Utf8
  import opened Guacamole
  import opened GuacamoleProperties

  predicate Encodable(value: seq<byte>) {
    Valid(value) && RuneCount(value) <= MAX_ELEMENT
  }

  predicate AllEncodable(values: seq<seq<byte>>) {
    forall v :: v in values ==> Encodable(v)
  }

  predicate Sound(i: Instruction) {
    i.opcode != [] && AllEncodable(Values(i))
  }

  function EncodeAll(stream: seq<Instruction>): seq<byte> {
    if stream == [] then [] else Encode(stream[0]) + EncodeAll(stream[1..])
  }

  // ---- Round trip ----

  lemma ElementOfEncoding(v: seq<byte>, separator: byte, rest: seq<byte>)
    requires separator < RUNE_SELF
    ensures ElementAt(EncodeElement(v, separator) + rest)
         == if RuneCount(v) > MAX_ELEMENT then BadElement
            else if Valid(v) then Element(v, separator, |EncodeElement(v, separator)|)
            else ShortElement
  {
    hide RuneCount, Valid, RunesEnd, Number, Decimal, DigitRun;
    var digits := Decimal(RuneCount(v));
    var d := |digits|;
    var s := EncodeElement(v, separator) + rest;
    DecimalRoundTrip(RuneCount(v));
    assert s[..d] == digits;
    assert DigitsBetween(s, 0, d) by {
      forall i | 0 <= i < d ensures IsDigit(s[i]) {
        assert s[i] == digits[i];
      }
    }
    assert s[0..] == s;
    DigitRunIs(s, 0, d);
    var behind := [separator] + rest;
    assert s[d + 1..] == v + behind;
    RunesEndAtSeparator(v, behind);
    if Valid(v) {
      assert s[d + 1..d + 1 + |v|] == v;
    }
  }

  lemma {:induction false} GroupOfEncoding(values: seq<seq<byte>>, rest: seq<byte>)
    requires values != []
    ensures var g := InstructionAt(EncodeValues(values) + rest);
            if AllEncodable(values) then g == Group(values, |EncodeValues(values)|) else !g.Group?
  {
    hide ElementAt, EncodeElement;
    var v, more := values[0], values[1..];
    assert v in values;
    if more == [] {
      ElementOfEncoding(v, SEMICOLON, rest);
      assert values == [v];
    } else {
      var head, tail := EncodeElement(v, COMMA), EncodeValues(more) + rest;
      var s := EncodeValues(values) + rest;
      assert s == head + tail;
      ElementOfEncoding(v, COMMA, tail);
      if Encodable(v) {
        assert s[|head|..] == tail;
        GroupOfEncoding(more, rest);
        assert [v] + more == values;
        assert AllEncodable(values) <==> AllEncodable(more);
      }
    }
  }

  /** A stream comes back unchanged, with nothing left over, exactly when every opcode is non-empty
      and every element is valid UTF-8 within the size limit; no character is special in a value. */
  lemma {:induction false} RoundTripExactly(stream: seq<Instruction>)
    ensures Parse(EncodeAll(stream)) == Ok(Parsed(stream, [])) <==> forall i :: i in stream ==> Sound(i)
  {
    hide InstructionAt, EncodeValues;
    if stream != [] {
      var i, more := stream[0], stream[1..];
      assert stream == [i] + more;
      var s, rest := EncodeAll(stream), EncodeAll(more);
      GroupOfEncoding(Values(i), rest);
      if AllEncodable(Values(i)) && i.opcode != [] {
        ParseGroup(s);
        assert s[|Encode(i)|..] == rest;
        assert Values(i)[1..] == i.args;
        RoundTripExactly(more);
        var r := Parse(rest);
        if r.Ok? && [i] + r.value.items == stream {
          assert r.value.items == ([i] + r.value.items)[1..] == more;
        }
        assert forall j :: j in stream <==> j == i || j in more;
      } else {
        assert !Sound(i) && i in stream;
      }
    }
  }

  // ---- Cuts ----

  /** Offset `k` lies directly behind a comma that separates two elements. */
  predicate BehindComma(values: seq<seq<byte>>, k: nat) {
    && |values| > 1
    && (var e := |EncodeElement(values[0], COMMA)|; k == e || (k > e && BehindComma(values[1..], k - e)))
  }

  predicate CutBehindComma(stream: seq<Instruction>, k: nat) {
    && stream != []
    && (var e := |Encode(stream[0])|;
        if k < e then BehindComma(Values(stream[0]), k) else CutBehindComma(stream[1..], k - e))
  }

  lemma TruncatedElement(v: seq<byte>, separator: byte, j: nat)
    requires Encodable(v) && 0 < j < |EncodeElement(v, separator)|
    ensures ElementAt(EncodeElement(v, separator)[..j]) == ShortElement
  {
    hide RuneCount, Valid, RunesEnd, Number, Decimal, DigitRun;
    var n := RuneCount(v);
    var digits := Decimal(n);
    var d := |digits|;
    var s := EncodeElement(v, separator)[..j];
    DecimalRoundTrip(n);
    var run := if j < d then j else d;
    assert DigitsBetween(s, 0, run) by {
      forall i | 0 <= i < run ensures IsDigit(s[i]) {
        assert s[i] == digits[i];
      }
    }
    assert s[0..] == s;
    DigitRunIs(s, 0, run);
    if d < j {
      assert s[..d] == digits;
      assert s[d + 1..] == v[..j - d - 1];
      if j - d - 1 < |v| {
        RunesEndTruncated(v, j - d - 1);
      } else {
        assert v[..j - d - 1] == v;
        WholeValue(v);
      }
    }
  }

  lemma {:induction false} WholeValue(v: seq<byte>)
    requires Valid(v)
    ensures RunesEnd(v, RuneCount(v)) == Some(|v|)
  {
    if v != [] {
      WholeValue(v[DecodeSize(v)..]);
    }
  }

  lemma {:induction false} TruncatedGroup(values: seq<seq<byte>>, k: nat)
    requires values != [] && AllEncodable(values) && 0 < k < |EncodeValues(values)|
    ensures InstructionAt(EncodeValues(values)[..k]) == if BehindComma(values, k) then BadGroup else ShortGroup
  {
    hide ElementAt, EncodeElement;
    var v, more := values[0], values[1..];
    assert v in values && AllEncodable(more);
    var separator := if more == [] then SEMICOLON else COMMA;
    var head, s := EncodeElement(v, separator), EncodeValues(values)[..k];
    if k < |head| {
      assert s == head[..k];
      TruncatedElement(v, separator, k);
    } else {
      var tail := EncodeValues(more)[..k - |head|];
      assert s == head + tail;
      ElementOfEncoding(v, COMMA, tail);
      assert s[|head|..] == tail;
      if k == |head| {
        EmptyIsBad();
      } else {
        TruncatedGroup(more, k - |head|);
      }
    }
  }

  lemma EmptyIsBad()
    ensures InstructionAt([]) == BadGroup
  {
  }

  /** `r` holds the first instructions of `stream` and keeps the rest of `s` byte for byte. */
  predicate WholeInstructions(stream: seq<Instruction>, s: seq<byte>, r: Result<Parsed>) {
    r.Ok? && r.value.items <= stream && EncodeAll(r.value.items) + r.value.rest == s
  }

  lemma OneMoreWhole(i: Instruction, more: seq<Instruction>, s: seq<byte>, r: Result<Parsed>)
    requires WholeInstructions(more, s, r)
    ensures WholeInstructions([i] + more, Encode(i) + s, AfterItems([i], r))
  {
    hide EncodeValues;
    var items := [i] + r.value.items;
    assert items[1..] == r.value.items;
    assert EncodeAll(items) + r.value.rest == Encode(i) + (EncodeAll(r.value.items) + r.value.rest);
  }

  lemma ParseStops(s: seq<byte>)
    requires s != [] && !InstructionAt(s).Group?
    ensures Parse(s) == if InstructionAt(s).BadGroup? then Err else Ok(Parsed([], s))
  {
  }

  /** What has arrived of a sound stream is rejected exactly when it ends behind a separating comma;
      otherwise the instructions already whole are returned and the rest is kept byte for byte. */
  lemma {:induction false} PrefixOfStream(stream: seq<Instruction>, k: nat)
    requires forall i :: i in stream ==> Sound(i)
    requires k <= |EncodeAll(stream)|
    ensures var s := EncodeAll(stream)[..k];
            if CutBehindComma(stream, k) then Parse(s) == Err else WholeInstructions(stream, s, Parse(s))
  {
    hide InstructionAt, EncodeValues, BehindComma, Parse;
    if k == 0 {
      assert EncodeAll(stream)[..k] == [];
      ParseNothing();
      if stream != [] {
        NotBehindComma(Values(stream[0]));
      }
    } else {
      var i, more := stream[0], stream[1..];
      assert Sound(i) && stream == [i] + more;
      var head, s := Encode(i), EncodeAll(stream)[..k];
      if k < |head| {
        assert s == head[..k];
        TruncatedGroup(Values(i), k);
        ParseStops(s);
      } else {
        var tail := EncodeAll(more)[..k - |head|];
        assert s == head + tail;
        GroupOfEncoding(Values(i), tail);
        ParseGroup(s);
        assert s[|head|..] == tail && Values(i)[1..] == i.args;
        PrefixOfStream(more, k - |head|);
        if !CutBehindComma(stream, k) {
          OneMoreWhole(i, more, tail, Parse(tail));
        }
      }
    }
  }

  lemma ParseNothing()
    ensures Parse([]) == Ok(Parsed([], []))
  {
  }

  lemma NotBehindComma(values: seq<seq<byte>>)
    ensures !BehindComma(values, 0)
  {
  }

  /** A sound stream, cut into messages in any way, reaches the reader whole and in order exactly
      when no message ends behind a separating comma; if one does, the reader stops there. */
  lemma Fragmentation(stream: seq<Instruction>, chunks: seq<seq<byte>>)
    requires forall i :: i in stream ==> Sound(i)
    requires Flatten(chunks) == EncodeAll(stream)
    ensures ReceiveAll(chunks).failed <==>
              exists n :: 0 <= n <= |chunks| && CutBehindComma(stream, |Arrived(chunks, n)|)
    ensures !ReceiveAll(chunks).failed ==> ReceiveAll(chunks) == Reader(stream, [], false)
  {
    hide Parse, ReceiveAll, CutBehindComma;
    forall n | 0 <= n <= |chunks|
      ensures Parse(Arrived(chunks, n)).Err? <==> CutBehindComma(stream, |Arrived(chunks, n)|)
    {
      ArrivedIsPrefix(chunks, n);
      PrefixOfStream(stream, |Arrived(chunks, n)|);
    }
    ReaderParsesTheStream(chunks);
    RoundTripExactly(stream);
  }

  lemma {:induction false} ArrivedIsPrefix(chunks: seq<seq<byte>>, n: nat)
    requires n <= |chunks|
    ensures |Arrived(chunks, n)| <= |Flatten(chunks)|
    ensures Arrived(chunks, n) == Flatten(chunks)[..|Arrived(chunks, n)|]
  {
    if n == |chunks| {
      assert chunks[..n] == chunks;
    } else {
      var front := chunks[..|chunks| - 1];
      ArrivedIsPrefix(front, n);
      assert front[..n] == chunks[..n];
    }
  }

  // ---- The one cut that fails ----

  /** Every instruction with an argument can be cut so that the reader refuses it: behind the first comma. */
  lemma CommaCutRefused(i: Instruction)
    requires Sound(i) && i.args != []
    ensures var k := |EncodeElement(i.opcode, COMMA)|;
            && 0 < k < |Encode(i)| && CutBehindComma([i], k)
            && Parse(Encode(i)[..k]) == Err && ReceiveAll([Encode(i)[..k], Encode(i)[k..]]).failed
            && !ReceiveAll([Encode(i)]).failed
  {
    hide EncodeElement, Parse, ReceiveAll;
    var k, s := |EncodeElement(i.opcode, COMMA)|, Encode(i);
    assert Values(i)[0] == i.opcode && |Values(i)| > 1;
    ElementNotEmpty(i.opcode, COMMA);
    OneEncoded(i);
    assert CutBehindComma([i], k) && 0 < k < |s|;
    PrefixOfStream([i], k);
    TwoChunks(s[..k], s[k..]);
    assert s[..k] + s[k..] == s;
    Fragmentation([i], [s[..k], s[k..]]);
    assert Arrived([s[..k], s[k..]], 1) == s[..k];
    TwoChunks(s, []);
    Fragmentation([i], [s]);
    WholeNotCut(i);
    forall n | 0 <= n <= 1 ensures !CutBehindComma([i], |Arrived([s], n)|) {
      assert Arrived([s], n) == if n == 0 then [] else s;
      NotBehindComma(Values(i));
    }
  }

  lemma ElementNotEmpty(v: seq<byte>, separator: byte)
    ensures |EncodeElement(v, separator)| > 0
  {
  }

  lemma OneEncoded(i: Instruction)
    ensures EncodeAll([i]) == Encode(i)
  {
    assert [i][1..] == [];
    assert EncodeAll([i]) == Encode(i) + [];
  }

  lemma TwoChunks(a: seq<byte>, b: seq<byte>)
    ensures Flatten([a, b]) == a + b && Flatten([a]) == a
    ensures Arrived([a, b], 1) == a && Arrived([a], 0) == [] && Arrived([a], 1) == a
  {
    assert [a, b][..1] == [a] && [a][..0] == [] && [a][..1] == [a];
    var one: seq<seq<byte>> := [a];
    assert Flatten(one[..0]) == [];
    assert Flatten(one) == [] + a == a;
    assert Flatten([a, b]) == Flatten(one) + b;
  }

  lemma WholeNotCut(i: Instruction)
    ensures !CutBehindComma([i], |Encode(i)|)
  {
    assert [i][1..] == [];
  }

  /** In bytes: of "1.A,1.B;" the reader refuses the beginning "1.A,". */
  lemma CommaCutExample()
    ensures var i := Instruction([65], [[66]]);
            && Encode(i) == [49, 46, 65, 44, 49, 46, 66, 59]
            && Parse([49, 46, 65, 44]) == Err && CutBehindComma([i], 4)
  {
    var i := Instruction([65], [[66]]);
    hide Parse, ReceiveAll, CutBehindComma;
    LetterEncoded(65, COMMA);
    LetterEncoded(66, SEMICOLON);
    assert Values(i)[1..] == [[66]];
    assert Encode(i) == EncodeElement([65], COMMA) + EncodeElement([66], SEMICOLON);
    LetterSound(i);
    CommaCutRefused(i);
    assert Encode(i)[..4] == [49, 46, 65, 44];
  }

  lemma LetterEncoded(b: byte, separator: byte)
    requires b == 65 || b == 66
    ensures EncodeElement([b], separator) == [49, 46, b, separator]
    ensures RuneCount([b]) == 1 && Valid([b])
  {
    assert RuneCount([b][1..]) == 0;
    assert Decimal(1) == [49];
  }

  lemma LetterSound(i: Instruction)
    requires i == Instruction([65], [[66]])
    ensures Sound(i)
  {
    LetterEncoded(65, COMMA);
    LetterEncoded(66, COMMA);
  }
}
