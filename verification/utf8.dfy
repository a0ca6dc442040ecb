/** Bytes, decimal digits and the rune decoding rules of section 4 of RFC 3629,
    as Go's unicode/utf8 package applies them. */
module Utf8 {
  import opened Wrappers

  type byte = b: int | 0 <= b <= 255

  const RUNE_SELF: byte := 0x80

  predicate IsContinuation(b: byte) { 0x80 <= b <= 0xBF }

  /** Length announced by a leading byte; 0 when the byte cannot lead. */
  function LeadLength(b: byte): nat {
    if b < 0x80 then 1
    else if 0xC2 <= b <= 0xDF then 2
    else if 0xE0 <= b <= 0xEF then 3
    else if 0xF0 <= b <= 0xF4 then 4
    else 0
  }

  /** The second byte is restricted further after E0, ED, F0 and F4. */
  predicate SecondAllowed(lead: byte, second: byte) {
    && (if lead == 0xE0 then 0xA0 else if lead == 0xF0 then 0x90 else 0x80) <= second
    && second <= (if lead == 0xED then 0x9F else if lead == 0xF4 then 0x8F else 0xBF)
  }

  /** Byte size reported by DecodeRune: 0 for no input, 1 for a byte that does not decode. */
  function DecodeSize(s: seq<byte>): (size: nat)
    ensures size <= |s|
    ensures size == 0 <==> s == []
  {
    if s == [] then 0 else
      var n := LeadLength(s[0]);
      if n <= 1 || |s| < n || !SecondAllowed(s[0], s[1])
         || (n >= 3 && !IsContinuation(s[2])) || (n == 4 && !IsContinuation(s[3])) then 1
      else n
  }

  /** A whole, well-formed rune stands at the head of `s`. */
  predicate RuneAhead(s: seq<byte>) {
    s != [] && !(DecodeSize(s) == 1 && s[0] >= RUNE_SELF)
  }

  /** utf8.RuneCountInString: every undecodable byte counts as one rune. */
  function RuneCount(s: seq<byte>): nat {
    if s == [] then 0 else 1 + RuneCount(s[DecodeSize(s)..])
  }

  predicate Valid(s: seq<byte>) {
    s == [] || (RuneAhead(s) && Valid(s[DecodeSize(s)..]))
  }

  /** End offset of `count` whole runes, or None when they are not all there. */
  function RunesEnd(s: seq<byte>, count: nat): (end: Option<nat>)
    ensures end.Some? ==> end.value <= |s|
  {
    if count == 0 then Some(0)
    else if !RuneAhead(s) then None
    else
      match RunesEnd(s[DecodeSize(s)..], count - 1)
      case None => None
      case Some(e) => Some(DecodeSize(s) + e)
  }

  /** Bytes that arrive later do not change runes already found. */
  lemma {:induction false} RunesEndExtends(a: seq<byte>, b: seq<byte>, count: nat)
    requires RunesEnd(a, count).Some?
    ensures RunesEnd(a + b, count) == RunesEnd(a, count)
  {
    if count > 0 {
      var k := DecodeSize(a);
      assert RuneAhead(a + b) && DecodeSize(a + b) == k;
      assert (a + b)[k..] == a[k..] + b;
      hide RuneAhead, DecodeSize;
      RunesEndExtends(a[k..], b, count - 1);
    }
  }

  /** Counting out a value's own runes in front of an ASCII separator ends exactly at the
      separator when the value is valid, and never completes when it is not. */
  lemma {:induction false} RunesEndAtSeparator(v: seq<byte>, rest: seq<byte>)
    requires rest != [] && rest[0] < RUNE_SELF
    ensures RunesEnd(v + rest, RuneCount(v)) == if Valid(v) then Some(|v|) else None
  {
    if v == [] {
      assert v + rest == rest;
    } else {
      var k := DecodeSize(v);
      assert RuneAhead(v + rest) <==> RuneAhead(v);
      if RuneAhead(v) {
        assert DecodeSize(v + rest) == k;
        assert (v + rest)[k..] == v[k..] + rest;
        RunesEndAtSeparator(v[k..], rest);
      }
    }
  }

  /** A proper prefix of a valid value never holds all of its runes. */
  lemma {:induction false} RunesEndTruncated(v: seq<byte>, j: nat)
    requires Valid(v) && j < |v|
    ensures RunesEnd(v[..j], RuneCount(v)) == None
  {
    var k := DecodeSize(v);
    if k <= j {
      assert RuneAhead(v[..j]) && DecodeSize(v[..j]) == k;
      assert v[..j][k..] == v[k..][..j - k];
      RunesEndTruncated(v[k..], j - k);
    }
  }
}
