/** What the parser reads, told as texts: an element is digits, a dot, as many encoded code points as the digits say,
    and a separator; an instruction is elements separated by commas and closed by a semicolon. */
module GuacamoleGrammar {
  import opened Wrappers
  import opened Utf8
  import opened CodePoints
  import opened Guacamole

  // ---- Digits ----

  predicate AllDigits(d: seq<byte>) { forall k :: 0 <= k < |d| ==> 48 <= d[k] <= 57 }

  function Ten(n: nat): nat { if n == 0 then 1 else 10 * Ten(n - 1) }

  /** The number that digits stand for, leading zeros or not. */
  function ValueOf(d: seq<byte>): int {
    if d == [] then 0 else (d[0] as int - 48) * Ten(|d| - 1) + ValueOf(d[1..])
  }

  lemma {:induction false} ValueAppend(d: seq<byte>, b: byte)
    ensures ValueOf(d + [b]) == 10 * ValueOf(d) + (b as int - 48)
  {
    if d == [] {
      assert d + [b] == [b] && [b][1..] == [] && Ten(0) == 1;
    } else {
      assert (d + [b])[1..] == d[1..] + [b];
      ValueAppend(d[1..], b);
      Tenfold(d[0] as int - 48, |d| - 1);
    }
  }

  lemma Tenfold(a: int, n: nat)
    ensures a * Ten(n + 1) == 10 * (a * Ten(n))
  {
  }

  lemma {:induction false} NumberIsValue(d: seq<byte>)
    requires AllDigits(d)
    ensures Number(d) == ValueOf(d)
  {
    if d != [] {
      var n := |d| - 1;
      NumberIsValue(d[..n]);
      ValueAppend(d[..n], d[n]);
      assert d == d[..n] + [d[n]];
    }
  }

  /** The encoder writes the one decimal text of a number that has no zero in front. */
  lemma {:induction false} DecimalExactly(n: nat)
    ensures var d := Decimal(n);
            d != [] && AllDigits(d) && ValueOf(d) == n && (d[0] == 48 ==> d == [48])
  {
    if n < 10 {
      assert [48 + n] == [] + [48 + n];
      ValueAppend([], 48 + n);
    } else {
      DecimalExactly(n / 10);
      ValueAppend(Decimal(n / 10), 48 + n % 10);
      if n < 100 {
        assert Decimal(n / 10) == [48 + n / 10];
      }
    }
  }

  // ---- Elements ----

  ghost predicate IsElement(t: seq<byte>, value: seq<byte>, separator: byte) {
    exists d, cs ::
      && d != [] && AllDigits(d) && AllScalar(cs) && ValueOf(d) == |cs| <= 16_777_216
      && value == EncodedAll(cs) && t == d + [46] + value + [separator]
  }

  /** No digit, digits that are not followed by a dot, or too large a number. */
  ghost predicate NoElement(s: seq<byte>) {
    exists d, rest: seq<byte> ::
      && s == d + rest && AllDigits(d) && (rest == [] || !(48 <= rest[0] <= 57))
      && (d == [] || (rest != [] && (rest[0] != 46 || ValueOf(d) > 16_777_216)))
  }

  lemma {:induction false} DigitRunSplits(d: seq<byte>, rest: seq<byte>)
    requires AllDigits(d) && (rest == [] || !(48 <= rest[0] <= 57))
    ensures DigitRun(d + rest) == |d|
  {
    if d == [] {
      assert d + rest == rest;
    } else {
      assert (d + rest)[1..] == d[1..] + rest;
      DigitRunSplits(d[1..], rest);
    }
  }

  lemma {:induction false} DigitRunStops(s: seq<byte>)
    ensures var n := DigitRun(s);
            AllDigits(s[..n]) && (n == |s| || !(48 <= s[n] <= 57))
  {
    if s != [] && IsDigit(s[0]) {
      DigitRunStops(s[1..]);
      var n := DigitRun(s);
      assert s[..n] == [s[0]] + s[1..][..n - 1];
    }
  }

  lemma ElementIsRead(s: seq<byte>, value: seq<byte>, separator: byte, size: nat)
    requires size <= |s| && IsElement(s[..size], value, separator)
    ensures ElementAt(s) == Element(value, separator, size)
  {
    hide RunesEnd, DigitRun, Number, EncodedAll, ValueOf, ElementAt;
    var d, cs :|
      && d != [] && AllDigits(d) && AllScalar(cs) && ValueOf(d) == |cs| <= 16_777_216
      && value == EncodedAll(cs) && s[..size] == d + [46] + value + [separator];
    var rest := s[size..];
    var tail := value + ([separator] + rest);
    assert s == d + ([46] + tail);
    DigitRunSplits(d, [46] + tail);
    NumberIsValue(d);
    assert s[..|d|] == d && s[|d| + 1..] == tail;
    RunesOfEncoded(cs, [separator] + rest);
    assert s[|d| + 1..|d| + 1 + |value|] == value && s[|d| + 1 + |value|] == separator;
    ElementIs(s, |d|, value, separator);
  }

  lemma ElementIs(s: seq<byte>, n: nat, value: seq<byte>, separator: byte)
    requires 0 < n == DigitRun(s) && n + 1 + |value| < |s| && s[n] == 46 && Number(s[..n]) <= 16_777_216
    requires RunesEnd(s[n + 1..], Number(s[..n])) == Some(|value|)
    requires s[n + 1..n + 1 + |value|] == value && s[n + 1 + |value|] == separator
    ensures ElementAt(s) == Element(value, separator, n + 2 + |value|)
  {
    hide RunesEnd, DigitRun, Number;
  }

  lemma ReadIsElement(s: seq<byte>)
    ensures ElementAt(s).Element? ==>
              var e := ElementAt(s); IsElement(s[..e.size], e.value, e.separator)
  {
    hide RunesEnd, DigitRun, Number, EncodedAll, ValueOf;
    var e := ElementAt(s);
    if e.Element? {
      var n := DigitRun(s);
      DigitRunStops(s);
      NumberIsValue(s[..n]);
      var cs := RunesAreEncoded(s[n + 1..], Number(s[..n]));
      assert s[..e.size] == s[..n] + [46] + e.value + [e.separator];
    }
  }

  /** An element is read exactly where its text stands. */
  lemma ElementExactly(s: seq<byte>, value: seq<byte>, separator: byte, size: nat)
    ensures ElementAt(s) == Element(value, separator, size) <==> size <= |s| && IsElement(s[..size], value, separator)
  {
    hide IsElement, ElementAt;
    ReadIsElement(s);
    if size <= |s| && IsElement(s[..size], value, separator) {
      ElementIsRead(s, value, separator, size);
    }
  }

  /** And refused exactly where none can begin. */
  lemma NoElementExactly(s: seq<byte>)
    ensures ElementAt(s).BadElement? <==> NoElement(s)
  {
    hide RunesEnd, DigitRun, Number, ValueOf;
    var n := DigitRun(s);
    DigitRunStops(s);
    assert s == s[..n] + s[n..];
    NumberIsValue(s[..n]);
    if NoElement(s) {
      var d, rest: seq<byte> :|
        && s == d + rest && AllDigits(d) && (rest == [] || !(48 <= rest[0] <= 57))
        && (d == [] || (rest != [] && (rest[0] != 46 || ValueOf(d) > 16_777_216)));
      DigitRunSplits(d, rest);
      assert d == s[..n] && rest == s[n..];
    }
  }

  // ---- Instructions ----

  /** Elements closed by commas, and the last one by a semicolon. */
  ghost predicate IsGroup(t: seq<byte>, values: seq<seq<byte>>)
    decreases |values|
  {
    values != [] &&
    if |values| == 1 then IsElement(t, values[0], 59)
    else exists k :: 0 <= k <= |t| && IsElement(t[..k], values[0], 44) && IsGroup(t[k..], values[1..])
  }

  /** After some elements closed by commas there comes none, or one closed by something else. */
  ghost predicate Broken(s: seq<byte>)
    decreases |s|
  {
    || NoElement(s)
    || (exists k, value, separator ::
          0 <= k <= |s| && IsElement(s[..k], value, separator) && separator != 44 && separator != 59)
    || (exists k, value :: 0 < k <= |s| && IsElement(s[..k], value, 44) && Broken(s[k..]))
  }

  lemma ElementNotEmpty(t: seq<byte>, value: seq<byte>, separator: byte)
    requires IsElement(t, value, separator)
    ensures |t| > 0
  {
  }

  lemma InstructionStep(s: seq<byte>)
    ensures var e := ElementAt(s);
            InstructionAt(s) == if e.ShortElement? then ShortGroup
                                else if e.BadElement? then BadGroup
                                else if e.separator == 59 then Group([e.value], e.size)
                                else if e.separator != 44 then BadGroup
                                else AfterValues([e.value], e.size, InstructionAt(s[e.size..]))
  {
  }

  lemma {:induction false} GroupIsRead(s: seq<byte>, values: seq<seq<byte>>, size: nat)
    requires size <= |s| && IsGroup(s[..size], values)
    ensures InstructionAt(s) == Group(values, size)
    decreases |values|
  {
    hide IsElement, ElementAt, InstructionAt;
    InstructionStep(s);
    if |values| == 1 {
      ElementExactly(s, values[0], 59, size);
    } else {
      var t := s[..size];
      var k :| 0 <= k <= |t| && IsElement(t[..k], values[0], 44) && IsGroup(t[k..], values[1..]);
      assert t[..k] == s[..k] && t[k..] == s[k..][..size - k];
      ElementExactly(s, values[0], 44, k);
      GroupIsRead(s[k..], values[1..], size - k);
      assert [values[0]] + values[1..] == values;
    }
  }

  lemma {:induction false} ReadIsGroup(s: seq<byte>)
    ensures InstructionAt(s).Group? ==> IsGroup(s[..InstructionAt(s).size], InstructionAt(s).values)
    ensures InstructionAt(s).BadGroup? <==> Broken(s)
    decreases |s|
  {
    hide IsElement, ElementAt, InstructionAt, NoElement, IsGroup, Broken;
    InstructionStep(s);
    BrokenStep(s);
    if ElementAt(s).Element? {
      var e := ElementAt(s);
      if e.separator == 44 {
        ReadIsGroup(s[e.size..]);
        var g := InstructionAt(s[e.size..]);
        if g.Group? {
          GroupJoins(s, e.value, e.size, g.values, g.size);
        }
      } else if e.separator == 59 {
        GroupOne(s, e.value, e.size);
      }
    }
  }

  lemma GroupOne(s: seq<byte>, value: seq<byte>, size: nat)
    requires ElementAt(s) == Element(value, 59, size) && size <= |s|
    ensures IsGroup(s[..size], [value])
  {
    hide IsElement, ElementAt;
    ElementExactly(s, value, 59, size);
  }

  lemma GroupJoins(s: seq<byte>, value: seq<byte>, k: nat, values: seq<seq<byte>>, size: nat)
    requires ElementAt(s) == Element(value, 44, k) && k + size <= |s| && values != []
    requires IsGroup(s[k..][..size], values)
    ensures IsGroup(s[..k + size], [value] + values)
  {
    hide IsElement, ElementAt;
    ElementExactly(s, value, 44, k);
    var t := s[..k + size];
    assert t[..k] == s[..k] && t[k..] == s[k..][..size];
    assert ([value] + values)[1..] == values;
  }

  lemma BrokenStep(s: seq<byte>)
    ensures var e := ElementAt(s);
            Broken(s) <==>
              e.BadElement? || (e.Element? && e.separator != 59 && (e.separator != 44 || Broken(s[e.size..])))
  {
    hide IsElement, ElementAt, NoElement;
    NoElementExactly(s);
    forall k, value, separator | 0 <= k <= |s| && IsElement(s[..k], value, separator)
      ensures ElementAt(s) == Element(value, separator, k) && k > 0
    {
      ElementExactly(s, value, separator, k);
      ElementNotEmpty(s[..k], value, separator);
    }
    if ElementAt(s).Element? {
      var e := ElementAt(s);
      ElementExactly(s, e.value, e.separator, e.size);
    }
  }

  // ---- Messages ----

  /** Nothing, or a beginning of an instruction that may still be completed or never will, but is not refused. */
  ghost predicate Unfinished(s: seq<byte>) {
    s == [] || (!Broken(s) && forall k, values :: 0 <= k <= |s| ==> !IsGroup(s[..k], values))
  }

  /** The texts of these instructions, none with an empty opcode, and then an unfinished rest. */
  ghost predicate Reads(s: seq<byte>, items: seq<Instruction>, rest: seq<byte>)
    decreases |items|
  {
    if items == [] then rest == s && Unfinished(s)
    else
      exists k ::
        && 0 <= k <= |s| && items[0].opcode != [] && IsGroup(s[..k], [items[0].opcode] + items[0].args)
        && Reads(s[k..], items[1..], rest)
  }

  lemma GroupExactly(s: seq<byte>, values: seq<seq<byte>>, size: nat)
    ensures size <= |s| && IsGroup(s[..size], values) <==> InstructionAt(s) == Group(values, size)
  {
    hide IsGroup, InstructionAt, Broken;
    ReadIsGroup(s);
    if size <= |s| && IsGroup(s[..size], values) {
      GroupIsRead(s, values, size);
    }
  }

  lemma UnfinishedExactly(s: seq<byte>)
    ensures Unfinished(s) <==> s == [] || InstructionAt(s).ShortGroup?
  {
    hide IsGroup, InstructionAt, Broken;
    ReadIsGroup(s);
    forall k: nat, values ensures k <= |s| && IsGroup(s[..k], values) <==> InstructionAt(s) == Group(values, k) {
      GroupExactly(s, values, k);
    }
  }

  lemma ParseStep(s: seq<byte>)
    ensures Parse(s) == if s == [] then Ok(Parsed([], []))
                        else
                          var g := InstructionAt(s);
                          if g.ShortGroup? then Ok(Parsed([], s))
                          else if g.BadGroup? || g.values[0] == [] then Err
                          else AfterItems([Instruction(g.values[0], g.values[1..])], Parse(s[g.size..]))
  {
  }

  /** The parser reads exactly these texts: its instructions and its remainder are the ones there are, and it refuses
      a message of which there are none. */
  lemma {:induction false} ParseExactly(s: seq<byte>, items: seq<Instruction>, rest: seq<byte>)
    ensures Parse(s) == Ok(Parsed(items, rest)) <==> Reads(s, items, rest)
    decreases |s|
  {
    hide IsGroup, InstructionAt, Parse, Broken, Unfinished, Reads;
    ParseStep(s);
    UnfinishedExactly(s);
    ReadsStep(s, items, rest);
    if s != [] && InstructionAt(s).Group? {
      var g := InstructionAt(s);
      if items != [] {
        ParseExactly(s[g.size..], items[1..], rest);
        if Parse(s[g.size..]).Ok? {
          var more := Parse(s[g.size..]).value;
          assert ([Instruction(g.values[0], g.values[1..])] + more.items)[1..] == more.items;
          assert items == [items[0]] + items[1..];
        }
      }
    }
  }

  lemma ReadsStep(s: seq<byte>, items: seq<Instruction>, rest: seq<byte>)
    ensures items == [] ==> (Reads(s, items, rest) <==> rest == s && Unfinished(s))
    ensures items != [] ==>
              (Reads(s, items, rest) <==>
                 var g := InstructionAt(s);
                 && s != [] && g.Group? && items[0] == Instruction(g.values[0], g.values[1..]) && g.values[0] != []
                 && Reads(s[g.size..], items[1..], rest))
  {
    hide IsGroup, InstructionAt, Unfinished;
    if items != [] {
      var values := [items[0].opcode] + items[0].args;
      forall k: nat ensures k <= |s| && IsGroup(s[..k], values) <==> InstructionAt(s) == Group(values, k) {
        GroupExactly(s, values, k);
      }
      if InstructionAt(s).Group? {
        var g := InstructionAt(s);
        assert g.values == [g.values[0]] + g.values[1..];
      }
    }
  }
}
