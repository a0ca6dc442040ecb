/** What decoding is, apart from the decoder: the encoding of code points by section 3 of RFC 3629. */
module CodePoints {
  import opened Wrappers
  import opened Utf8

  /** Up to 0x10FFFF, without the surrogates. */
  predicate IsScalar(c: int) { 0 <= c <= 0x10FFFF && !(0xD800 <= c <= 0xDFFF) }

  /** One byte up to seven bits, two up to eleven, three up to sixteen, four beyond. */
  function Encoded(c: int): (r: seq<byte>)
    requires IsScalar(c)
    ensures 1 <= |r| <= 4
  {
    if c < 0x80 then [c]
    else if c < 0x800 then [0xC0 + c / 64, 0x80 + c % 64]
    else if c < 0x10000 then [0xE0 + c / 4096, 0x80 + c / 64 % 64, 0x80 + c % 64]
    else [0xF0 + c / 262144, 0x80 + c / 4096 % 64, 0x80 + c / 64 % 64, 0x80 + c % 64]
  }

  predicate AllScalar(cs: seq<int>) { forall k :: 0 <= k < |cs| ==> IsScalar(cs[k]) }

  function EncodedAll(cs: seq<int>): seq<byte>
    requires AllScalar(cs)
  {
    if cs == [] then [] else Encoded(cs[0]) + EncodedAll(cs[1..])
  }

  // ---- One code point ----

  /** The six-bit groups of a number. */
  lemma Groups(c: int)
    requires 0 <= c <= 0x10FFFF
    ensures c == c / 64 * 64 + c % 64
    ensures c / 64 == c / 4096 * 64 + c / 64 % 64
    ensures c / 4096 == c / 262144 * 64 + c / 4096 % 64
  {
    assert c / 64 / 64 == c / 4096;
    assert c / 4096 / 64 == c / 262144;
  }

  /** Whatever follows an encoded code point, it is what stands at the head. */
  lemma EncodedDecodes(c: int, rest: seq<byte>)
    requires IsScalar(c)
    ensures DecodeSize(Encoded(c) + rest) == |Encoded(c)| && RuneAhead(Encoded(c) + rest)
  {
    Groups(c);
    var s := Encoded(c) + rest;
    assert forall k :: 0 <= k < |Encoded(c)| ==> s[k] == Encoded(c)[k];
  }

  /** The code point that a well-formed head stands for. */
  function Decoded(s: seq<byte>): int
    requires RuneAhead(s)
  {
    match DecodeSize(s)
    case 1 => s[0] as int
    case 2 => Low(s[0] - 0xC0, s[1])
    case 3 => Low(Low(s[0] - 0xE0, s[1]), s[2])
    case _ => Low(Low(Low(s[0] - 0xF0, s[1]), s[2]), s[3])
  }

  /** Six bits more, from a continuation byte. */
  function Low(high: int, b: byte): int { high * 64 + (b as int - 0x80) }

  /** A head that decodes is always some encoded code point. */
  lemma HeadIsEncoded(s: seq<byte>)
    requires RuneAhead(s)
    ensures IsScalar(Decoded(s)) && Encoded(Decoded(s)) == s[..DecodeSize(s)]
  {
    hide Encoded, IsScalar;
    match DecodeSize(s) {
      case 1 => OneByte(s[0]);
      case 2 => TwoBytes(s[0], s[1]);
      case 3 => ThreeBytes(s[0], s[1], s[2]);
      case _ => FourBytes(s[0], s[1], s[2], s[3]);
    }
  }

  lemma OneByte(a: byte)
    requires a < 0x80
    ensures IsScalar(a as int) && Encoded(a as int) == [a]
  {
  }

  lemma TwoBytes(a: byte, b: byte)
    requires 0xC2 <= a <= 0xDF && 0x80 <= b <= 0xBF
    ensures var c := Low(a - 0xC0, b); IsScalar(c) && Encoded(c) == [a, b]
  {
    Parts(0, 0, a - 0xC0, b - 0x80);
  }

  lemma ThreeBytes(a: byte, b: byte, d: byte)
    requires 0xE0 <= a <= 0xEF && 0x80 <= b <= 0xBF && 0x80 <= d <= 0xBF
    requires (a == 0xE0 ==> b >= 0xA0) && (a == 0xED ==> b <= 0x9F)
    ensures var c := Low(Low(a - 0xE0, b), d); IsScalar(c) && Encoded(c) == [a, b, d]
  {
    Parts(0, a - 0xE0, b - 0x80, d - 0x80);
  }

  lemma FourBytes(a: byte, b: byte, d: byte, e: byte)
    requires 0xF0 <= a <= 0xF4 && 0x80 <= b <= 0xBF && 0x80 <= d <= 0xBF && 0x80 <= e <= 0xBF
    requires (a == 0xF0 ==> b >= 0x90) && (a == 0xF4 ==> b <= 0x8F)
    ensures var c := Low(Low(Low(a - 0xF0, b), d), e); IsScalar(c) && Encoded(c) == [a, b, d, e]
  {
    Parts(a - 0xF0, b - 0x80, d - 0x80, e - 0x80);
  }

  lemma Parts(h: int, i: int, j: int, k: int)
    requires 0 <= h && 0 <= i < 64 && 0 <= j < 64 && 0 <= k < 64
    ensures var c := h * 262144 + i * 4096 + j * 64 + k;
            c / 262144 == h && c / 4096 % 64 == i && c / 64 % 64 == j && c % 64 == k && c / 4096 == h * 64 + i
            && c / 64 == h * 4096 + i * 64 + j
  {
    var c := h * 262144 + i * 4096 + j * 64 + k;
    assert c / 64 == h * 4096 + i * 64 + j;
    assert c / 4096 == h * 64 + i;
  }

  /** A code point is ahead exactly if its encoding is a beginning of the bytes, and then its length is the size;
      where none is, the size is one byte if there is any. */
  lemma AheadExactly(s: seq<byte>)
    ensures RuneAhead(s) <==> exists c :: IsScalar(c) && Encoded(c) <= s
    ensures forall c :: IsScalar(c) && Encoded(c) <= s ==> DecodeSize(s) == |Encoded(c)|
    ensures !RuneAhead(s) ==> DecodeSize(s) == if s == [] then 0 else 1
  {
    hide Encoded;
    forall c | IsScalar(c) && Encoded(c) <= s ensures RuneAhead(s) && DecodeSize(s) == |Encoded(c)| {
      EncodedDecodes(c, s[|Encoded(c)|..]);
      assert Encoded(c) + s[|Encoded(c)|..] == s;
    }
    if RuneAhead(s) {
      HeadIsEncoded(s);
      assert IsScalar(Decoded(s)) && Encoded(Decoded(s)) <= s;
    }
  }

  // ---- Many ----

  lemma {:induction false} EncodedAllCounts(cs: seq<int>)
    requires AllScalar(cs)
    ensures Valid(EncodedAll(cs)) && RuneCount(EncodedAll(cs)) == |cs|
  {
    hide Encoded, DecodeSize, RuneAhead;
    if cs != [] {
      EncodedAllCounts(cs[1..]);
      EncodedDecodes(cs[0], EncodedAll(cs[1..]));
      assert (Encoded(cs[0]) + EncodedAll(cs[1..]))[|Encoded(cs[0])|..] == EncodedAll(cs[1..]);
    }
  }

  lemma {:induction false} ValidIsEncoded(s: seq<byte>) returns (cs: seq<int>)
    requires Valid(s)
    ensures AllScalar(cs) && EncodedAll(cs) == s
    decreases |s|
  {
    hide Encoded, DecodeSize, RuneAhead, Decoded;
    if s == [] {
      cs := [];
    } else {
      HeadIsEncoded(s);
      var rest := ValidIsEncoded(s[DecodeSize(s)..]);
      cs := [Decoded(s)] + rest;
      assert cs[1..] == rest;
      assert s[..DecodeSize(s)] + s[DecodeSize(s)..] == s;
    }
  }

  /** Valid bytes are exactly the concatenations of encoded code points, and their number is the rune count. */
  lemma ValidExactly(s: seq<byte>)
    ensures Valid(s) <==> exists cs :: AllScalar(cs) && EncodedAll(cs) == s
    ensures forall cs :: AllScalar(cs) && EncodedAll(cs) == s ==> RuneCount(s) == |cs|
  {
    hide Valid, RuneCount, EncodedAll;
    forall cs | AllScalar(cs) && EncodedAll(cs) == s ensures Valid(s) && RuneCount(s) == |cs| {
      EncodedAllCounts(cs);
    }
    if Valid(s) {
      var cs := ValidIsEncoded(s);
    }
  }

  lemma RunesEndStep(s: seq<byte>, count: nat)
    ensures count == 0 ==> RunesEnd(s, count) == Some(0)
    ensures count > 0 && !RuneAhead(s) ==> RunesEnd(s, count) == None
    ensures count > 0 && RuneAhead(s) ==>
              RunesEnd(s, count) ==
              match RunesEnd(s[DecodeSize(s)..], count - 1)
              case None => None
              case Some(e) => Some(DecodeSize(s) + e)
  {
    hide RuneAhead, DecodeSize;
  }

  /** So many encoded code points are so many whole runes. */
  lemma {:induction false} RunesOfEncoded(cs: seq<int>, rest: seq<byte>)
    requires AllScalar(cs)
    ensures RunesEnd(EncodedAll(cs) + rest, |cs|) == Some(|EncodedAll(cs)|)
  {
    hide Encoded, DecodeSize, RuneAhead, RunesEnd;
    var s := EncodedAll(cs) + rest;
    RunesEndStep(s, |cs|);
    if cs != [] {
      var k := |Encoded(cs[0])|;
      var more := EncodedAll(cs[1..]) + rest;
      assert s == Encoded(cs[0]) + more;
      EncodedDecodes(cs[0], more);
      assert s[k..] == more;
      RunesOfEncoded(cs[1..], rest);
    }
  }

  lemma {:induction false} RunesAreEncoded(s: seq<byte>, count: nat) returns (cs: seq<int>)
    requires RunesEnd(s, count).Some?
    ensures AllScalar(cs) && |cs| == count && EncodedAll(cs) == s[..RunesEnd(s, count).value]
    decreases count
  {
    hide Encoded, DecodeSize, RuneAhead, Decoded, RunesEnd;
    RunesEndStep(s, count);
    cs := [];
    if count > 0 {
      var k := DecodeSize(s);
      HeadIsEncoded(s);
      var rest := RunesAreEncoded(s[k..], count - 1);
      var end := RunesEnd(s[k..], count - 1).value;
      assert s[..k] + s[k..][..end] == s[..k + end];
      cs := [Decoded(s)] + rest;
      assert cs[1..] == rest;
    }
  }

  /** So many whole runes end where the encodings of so many code points do, and nowhere if there are none. */
  lemma RunesEndExactly(s: seq<byte>, count: nat, end: nat)
    requires end <= |s|
    ensures RunesEnd(s, count) == Some(end) <==>
              exists cs :: AllScalar(cs) && |cs| == count && EncodedAll(cs) == s[..end]
  {
    hide EncodedAll, RunesEnd;
    if cs :| AllScalar(cs) && |cs| == count && EncodedAll(cs) == s[..end] {
      RunesOfEncoded(cs, s[end..]);
      assert s[..end] + s[end..] == s;
    }
    if RunesEnd(s, count) == Some(end) {
      var cs := RunesAreEncoded(s, count);
    }
  }
}
