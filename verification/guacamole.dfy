/** The Guacamole instruction codec: length-prefixed elements, and a reader that carries the
    unfinished tail of one message over to the next. */
module Guacamole {
  import opened Wrappers
  import opened Utf8

  const MAX_ELEMENT := 16 * 1024 * 1024
  const DOT: byte := 46
  const COMMA: byte := 44
  const SEMICOLON: byte := 59

  datatype Instruction = Instruction(opcode: seq<byte>, args: seq<seq<byte>>)
  datatype Parsed = Parsed(items: seq<Instruction>, rest: seq<byte>)

  function Values(i: Instruction): seq<seq<byte>> { [i.opcode] + i.args }

  // ---- Decimal lengths ----

  predicate IsDigit(b: byte) { 48 <= b <= 57 }

  predicate DigitsBetween(s: seq<byte>, lo: nat, hi: nat)
    requires lo <= hi <= |s|
  {
    forall i :: lo <= i < hi ==> IsDigit(s[i])
  }

  function Decimal(n: nat): seq<byte> {
    if n < 10 then [48 + n] else Decimal(n / 10) + [48 + n % 10]
  }

  /** strconv.Atoi on a run of digits. */
  function Number(s: seq<byte>): nat {
    if s == [] then 0 else 10 * Number(s[..|s| - 1]) + (if IsDigit(s[|s| - 1]) then s[|s| - 1] as int - 48 else 0)
  }

  lemma {:induction false} DecimalRoundTrip(n: nat)
    ensures Number(Decimal(n)) == n
    ensures Decimal(n) != [] && DigitsBetween(Decimal(n), 0, |Decimal(n)|)
  {
    if n >= 10 {
      DecimalRoundTrip(n / 10);
      assert Decimal(n)[..|Decimal(n)| - 1] == Decimal(n / 10);
    }
  }

  function DigitRun(s: seq<byte>): (n: nat)
    ensures n <= |s|
  {
    if s == [] || !IsDigit(s[0]) then 0 else 1 + DigitRun(s[1..])
  }

  /** The digit run is determined by where the digits stop. */
  lemma {:induction false} DigitRunIs(s: seq<byte>, lo: nat, hi: nat)
    requires lo <= hi <= |s|
    requires DigitsBetween(s, lo, hi)
    requires hi < |s| ==> !IsDigit(s[hi])
    ensures DigitRun(s[lo..]) == hi - lo
    decreases hi - lo
  {
    if lo < hi {
      assert s[lo..][1..] == s[lo + 1..];
      DigitRunIs(s, lo + 1, hi);
    }
  }

  // ---- Grammar, by remaining input ----

  datatype Element = Element(value: seq<byte>, separator: byte, size: nat) | ShortElement | BadElement

  /** One element, its length prefix and its separator. An input that stops inside an element is
      Short; an input without any digit, the empty input among them, is Bad. */
  function ElementAt(s: seq<byte>): (e: Element)
    ensures e.Element? ==> 0 < e.size <= |s|
  {
    var d := DigitRun(s);
    if d == 0 then BadElement
    else if d == |s| then ShortElement
    else ElementBody(s, d)
  }

  function ElementBody(s: seq<byte>, d: nat): (e: Element)
    requires d < |s|
    ensures e.Element? ==> 0 < e.size <= |s|
  {
    if s[d] != DOT || Number(s[..d]) > MAX_ELEMENT then BadElement
    else
      match RunesEnd(s[d + 1..], Number(s[..d]))
      case None => ShortElement
      case Some(e) =>
        if d + 1 + e == |s| then ShortElement
        else Element(s[d + 1..d + 1 + e], s[d + 1 + e], d + 2 + e)
  }

  datatype Group = Group(values: seq<seq<byte>>, size: nat) | ShortGroup | BadGroup

  function InstructionAt(s: seq<byte>): (g: Group)
    ensures g.Group? ==> g.values != [] && 0 < g.size <= |s|
    decreases |s|
  {
    match ElementAt(s)
    case ShortElement => ShortGroup
    case BadElement => BadGroup
    case Element(v, separator, size) =>
      if separator == SEMICOLON then Group([v], size)
      else if separator != COMMA then BadGroup
      else AfterValues([v], size, InstructionAt(s[size..]))
  }

  function AfterValues(values: seq<seq<byte>>, size: nat, g: Group): Group {
    if g.Group? then Group(values + g.values, size + g.size) else g
  }

  function Parse(s: seq<byte>): (r: Result<Parsed>)
    decreases |s|
  {
    if s == [] then Ok(Parsed([], []))
    else
      match InstructionAt(s)
      case ShortGroup => Ok(Parsed([], s))
      case BadGroup => Err
      case Group(values, size) =>
        if values[0] == [] then Err
        else AfterItems([Instruction(values[0], values[1..])], Parse(s[size..]))
  }

  function AfterItems(items: seq<Instruction>, r: Result<Parsed>): Result<Parsed> {
    if r.Ok? then Ok(Parsed(items + r.value.items, r.value.rest)) else Err
  }

  // ---- The code: cursors over one buffer ----

  /** RunesEnd as an offset into the whole buffer. */
  function RunesFrom(input: seq<byte>, position: nat, count: nat): Option<nat>
    requires position <= |input|
  {
    match RunesEnd(input[position..], count)
    case None => None
    case Some(e) => Some(position + e)
  }

  lemma RunesFromStep(input: seq<byte>, position: nat, count: nat)
    requires position <= |input| && count > 0
    ensures position < |input| ==> 0 < DecodeSize(input[position..])
    ensures RunesFrom(input, position, count)
         == if position == |input| || (DecodeSize(input[position..]) == 1 && input[position] >= RUNE_SELF) then None
            else RunesFrom(input, position + DecodeSize(input[position..]), count - 1)
  {
    var tail := input[position..];
    assert tail[DecodeSize(tail)..] == input[position + DecodeSize(tail)..];
  }

  method RuneByteEnd(input: seq<byte>, start: nat, count: nat) returns (end: Option<nat>)
    requires start <= |input|
    ensures end == RunesFrom(input, start, count)
  {
    var position := start;
    for index := 0 to count
      invariant start <= position <= |input|
      invariant RunesFrom(input, start, count) == RunesFrom(input, position, count - index)
    {
      RunesFromStep(input, position, count - index);
      if position >= |input| {
        return None;
      }
      var size := DecodeSize(input[position..]);
      if size == 0 || (size == 1 && input[position] >= RUNE_SELF) {
        return None;
      }
      position := position + size;
    }
    return Some(position);
  }

  lemma AfterItemsTwice(a: seq<Instruction>, b: seq<Instruction>, r: Result<Parsed>)
    ensures AfterItems(a, AfterItems(b, r)) == AfterItems(a + b, r)
  {
    if r.Ok? {
      assert a + (b + r.value.items) == a + b + r.value.items;
    }
  }

  /** What is parsed when `items` are done and the cursor stands at `position`. */
  function ParseFrom(input: seq<byte>, items: seq<Instruction>, position: nat): Result<Parsed>
    requires position <= |input|
  {
    AfterItems(items, Parse(input[position..]))
  }

  /** The instruction begun at `start` when `values` are read and the cursor stands at `position`. */
  function GroupFrom(input: seq<byte>, start: nat, values: seq<seq<byte>>, position: nat): Group
    requires start <= position <= |input|
  {
    AfterValues(values, position - start, InstructionAt(input[position..]))
  }

  lemma ParseFromStart(input: seq<byte>)
    ensures ParseFrom(input, [], 0) == Parse(input)
  {
    assert input[0..] == input;
    if Parse(input).Ok? {
      assert [] + Parse(input).value.items == Parse(input).value.items;
    }
  }

  lemma ParseFromEnd(input: seq<byte>, items: seq<Instruction>)
    ensures ParseFrom(input, items, |input|) == Ok(Parsed(items, []))
  {
    assert input[|input|..] == [] && items + [] == items;
  }

  lemma ParseFromStops(input: seq<byte>, items: seq<Instruction>, start: nat)
    requires start < |input|
    ensures var g := InstructionAt(input[start..]);
            && (g.BadGroup? ==> ParseFrom(input, items, start) == Err)
            && (g.ShortGroup? ==> ParseFrom(input, items, start) == Ok(Parsed(items, input[start..])))
            && (g.Group? && g.values[0] == [] ==> ParseFrom(input, items, start) == Err)
  {
    assert items + [] == items;
  }

  lemma ParseGroup(s: seq<byte>)
    requires InstructionAt(s).Group? && InstructionAt(s).values[0] != []
    ensures var g := InstructionAt(s);
            Parse(s) == AfterItems([Instruction(g.values[0], g.values[1..])], Parse(s[g.size..]))
  {
  }

  lemma ParseFromContinues(input: seq<byte>, items: seq<Instruction>, start: nat, values: seq<seq<byte>>, position: nat)
    requires start < position <= |input|
    requires values != [] && values[0] != []
    requires InstructionAt(input[start..]) == Group(values, position - start)
    ensures ParseFrom(input, items, start) == ParseFrom(input, items + [Instruction(values[0], values[1..])], position)
  {
    hide Parse, InstructionAt;
    var one := [Instruction(values[0], values[1..])];
    assert input[start..][position - start..] == input[position..];
    var r := Parse(input[position..]);
    ParseGroup(input[start..]);
    AfterItemsTwice(items, one, r);
  }

  lemma GroupFromStart(input: seq<byte>, start: nat)
    requires start <= |input|
    ensures GroupFrom(input, start, [], start) == InstructionAt(input[start..])
  {
    var g := InstructionAt(input[start..]);
    if g.Group? {
      assert [] + g.values == g.values;
    }
  }

  lemma GroupFromStops(input: seq<byte>, start: nat, values: seq<seq<byte>>, position: nat)
    requires start <= position <= |input|
    ensures var e, g := ElementAt(input[position..]), GroupFrom(input, start, values, position);
            && (e.BadElement? ==> g == BadGroup)
            && (e.ShortElement? ==> g == ShortGroup)
            && (e.Element? && e.separator != COMMA ==>
                  g == if e.separator == SEMICOLON then Group(values + [e.value], position + e.size - start) else
                      BadGroup)
  {
  }

  lemma GroupFromContinues(input: seq<byte>, start: nat, values: seq<seq<byte>>, position: nat)
    requires start <= position <= |input|
    requires ElementAt(input[position..]).Element? && ElementAt(input[position..]).separator == COMMA
    ensures var e := ElementAt(input[position..]);
            GroupFrom(input, start, values, position) == GroupFrom(input, start, values + [e.value], position + e.size)
  {
    var tail := input[position..];
    var e := ElementAt(tail);
    assert tail[e.size..] == input[position + e.size..];
    var g := InstructionAt(input[position + e.size..]);
    if g.Group? {
      assert values + ([e.value] + g.values) == values + [e.value] + g.values;
    }
  }

  lemma ElementFromCursor(input: seq<byte>, position: nat, dot: nat)
    requires position <= dot <= |input|
    requires DigitsBetween(input, position, dot)
    requires dot < |input| ==> !IsDigit(input[dot])
    ensures dot == position ==> ElementAt(input[position..]) == BadElement
    ensures position < dot == |input| ==> ElementAt(input[position..]) == ShortElement
    ensures position < dot < |input| ==> ElementAt(input[position..]) == ElementAfter(input, position, dot)
  {
    DigitRunIs(input, position, dot);
    if position < dot < |input| {
      ElementFromDot(input, position, dot);
    }
  }

  lemma ElementFromDot(input: seq<byte>, position: nat, dot: nat)
    requires position < dot < |input| && DigitRun(input[position..]) == dot - position
    ensures ElementAt(input[position..]) == ElementAfter(input, position, dot)
  {
    hide RunesEnd, DigitRun, Number;
    var tail := input[position..];
    {
      assert tail[..dot - position] == input[position..dot];
      var n := Number(input[position..dot]);
      var body := input[dot + 1..];
      assert tail[dot - position + 1..] == body;
      if RunesEnd(body, n).Some? {
        var e := RunesEnd(body, n).value;
        assert tail[dot - position + 1..dot - position + 1 + e] == input[dot + 1..dot + 1 + e];
      }
    }
  }

  /** The element at `position` whose length digits end at `dot`. */
  function ElementAfter(input: seq<byte>, position: nat, dot: nat): Element
    requires position < dot < |input|
  {
    var n := Number(input[position..dot]);
    if input[dot] != DOT || n > MAX_ELEMENT then BadElement
    else
      match RunesFrom(input, dot + 1, n)
      case None => ShortElement
      case Some(e) =>
        if e >= |input| || e <= dot then ShortElement
        else Element(input[dot + 1..e], input[e], e + 1 - position)
  }

  method ScanElement(input: seq<byte>, position: nat) returns (e: Element)
    requires position <= |input|
    ensures e == ElementAt(input[position..])
  {
    hide ElementAt, Number;
    var dot := position;
    while dot < |input| && IsDigit(input[dot])
      invariant position <= dot <= |input|
      invariant DigitsBetween(input, position, dot)
    {
      dot := dot + 1;
    }
    ElementFromCursor(input, position, dot);
    if dot == position {
      return BadElement;
    }
    if dot == |input| {
      return ShortElement;
    }
    var length := Number(input[position..dot]);
    if input[dot] != DOT || length > MAX_ELEMENT {
      return BadElement;
    }
    var valueEnd := RuneByteEnd(input, dot + 1, length);
    if valueEnd.None? || valueEnd.value >= |input| {
      return ShortElement;
    }
    return Element(input[dot + 1..valueEnd.value], input[valueEnd.value], valueEnd.value + 1 - position);
  }

  method ParseInstructions(input: seq<byte>) returns (r: Result<Parsed>)
    ensures r == Parse(input)
  {
    hide Parse, InstructionAt, ElementAt, ParseFrom, GroupFrom;
    var items := [];
    var position := 0;
    ghost var whole := Parse(input);
    ParseFromStart(input);
    while position < |input|
      invariant position <= |input|
      invariant whole == ParseFrom(input, items, position)
    {
      var start := position;
      var values: seq<seq<byte>> := [];
      ghost var group := InstructionAt(input[start..]);
      ParseFromStops(input, items, start);
      GroupFromStart(input, start);
      while true
        invariant start <= position <= |input|
        invariant group == GroupFrom(input, start, values, position)
        decreases |input| - position
      {
        GroupFromStops(input, start, values, position);
        var element := ScanElement(input, position);
        if element.BadElement? {
          return Err;
        }
        if element.ShortElement? {
          return Ok(Parsed(items, input[start..]));
        }
        ghost var before, at := values, position;
        values := values + [element.value];
        position := position + element.size;
        if element.separator == SEMICOLON {
          assert group == Group(values, position - start);
          if values[0] == [] {
            return Err;
          }
          ParseFromContinues(input, items, start, values, position);
          items := items + [Instruction(values[0], values[1..])];
          break;
        }
        if element.separator != COMMA {
          return Err;
        }
        GroupFromContinues(input, start, before, at);
      }
    }
    ParseFromEnd(input, items);
    return Ok(Parsed(items, []));
  }

  function EncodeElement(value: seq<byte>, separator: byte): seq<byte> {
    Decimal(RuneCount(value)) + [DOT] + value + [separator]
  }

  function EncodeValues(values: seq<seq<byte>>): (s: seq<byte>)
    requires values != []
    ensures s != []
  {
    if |values| == 1 then EncodeElement(values[0], SEMICOLON)
    else EncodeElement(values[0], COMMA) + EncodeValues(values[1..])
  }

  function Encode(i: Instruction): (s: seq<byte>)
    ensures s != []
  {
    EncodeValues(Values(i))
  }

  function EncodeRest(values: seq<seq<byte>>): seq<byte> {
    if values == [] then [] else EncodeValues(values)
  }

  lemma EncodeRestStep(result: seq<byte>, values: seq<seq<byte>>, index: nat)
    requires index < |values|
    ensures var separator := if index == |values| - 1 then SEMICOLON else COMMA;
            result + EncodeRest(values[index..])
            == result + Decimal(RuneCount(values[index])) + [DOT] + values[index] + [separator] +
                EncodeRest(values[index + 1..])
  {
    assert values[index..][1..] == values[index + 1..];
  }

  method EncodeInstruction(opcode: seq<byte>, args: seq<seq<byte>>) returns (result: seq<byte>)
    ensures result == Encode(Instruction(opcode, args))
  {
    var values := [opcode] + args;
    result := [];
    for index := 0 to |values|
      invariant EncodeRest(values) == result + EncodeRest(values[index..])
    {
      EncodeRestStep(result, values, index);
      var value := values[index];
      result := result + Decimal(RuneCount(value)) + [DOT] + value;
      if index == |values| - 1 {
        result := result + [SEMICOLON];
      } else {
        result := result + [COMMA];
      }
    }
  }
}
