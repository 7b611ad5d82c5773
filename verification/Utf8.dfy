/**
 * UTF-8, as the streaming text decoder of the Encoding Standard reads it: one byte at a time,
 * malformed sequences replaced, a leading byte order mark dropped.
 */
module Utf8 {
  type Byte = b: nat | b < 256

  /** Bytes still needed, the code point so far, and the bounds of the next byte. */
  datatype Decoder = Decoder(needed: nat, point: nat, lower: nat, upper: nat, started: bool)

  const FRESH := Decoder(0, 0, 0x80, 0xBF, false)

  const REPLACEMENT := '\U{FFFD}'
  const BYTE_ORDER_MARK := '\U{FEFF}'

  predicate IsScalar(n: int) {
    0 <= n < 0xD800 || 0xE000 <= n < 0x110000
  }

  /** A decoded character; a byte order mark in front of everything else is swallowed. */
  function Emit(d: Decoder, c: char): (Decoder, string) {
    (Decoder(0, 0, 0x80, 0xBF, true), if !d.started && c == BYTE_ORDER_MARK then "" else [c])
  }

  function Await(d: Decoder, needed: nat, point: nat, lower: nat, upper: nat): (Decoder, string) {
    (Decoder(needed, point, lower, upper, d.started), "")
  }

  /** A byte at the start of a character. */
  function Lead(d: Decoder, b: Byte): (Decoder, string) {
    if b < 0x80 then Emit(d, b as char)
    else if 0xC2 <= b <= 0xDF then Await(d, 1, b - 0xC0, 0x80, 0xBF)
    else if 0xE0 <= b <= 0xEF
    then Await(d, 2, b - 0xE0, if b == 0xE0 then 0xA0 else 0x80, if b == 0xED then 0x9F else 0xBF)
    else if 0xF0 <= b <= 0xF4
    then Await(d, 3, b - 0xF0, if b == 0xF0 then 0x90 else 0x80, if b == 0xF4 then 0x8F else 0xBF)
    else Emit(d, REPLACEMENT)
  }

  /** One byte. One that cannot continue a character is replaced and read again as a start. */
  function Step(d: Decoder, b: Byte): (Decoder, string) {
    if d.needed == 0 then Lead(d, b)
    else if !(d.lower <= b <= d.upper) then
      var (broken, mark) := Emit(d, REPLACEMENT);
      var (next, rest) := Lead(broken, b);
      (next, mark + rest)
    else
      var point := d.point * 64 + b % 64;
      if d.needed > 1 then Await(d, d.needed - 1, point, 0x80, 0xBF)
      else Emit(d, if IsScalar(point) then point as char else REPLACEMENT)
  }

  /** A chunk of a stream: an unfinished character stays in the decoder. */
  function Decode(d: Decoder, bytes: seq<Byte>): (Decoder, string)
    decreases bytes
  {
    if bytes == [] then (d, "")
    else
      var (next, text) := Step(d, bytes[0]);
      var (last, rest) := Decode(next, bytes[1..]);
      (last, text + rest)
  }

  /** The end of the stream: an unfinished character is replaced. */
  function Flush(d: Decoder): string {
    if d.needed == 0 then "" else [REPLACEMENT]
  }

  /** Decoding respects concatenation, wherever a character is cut. */
  lemma {:induction false} DecodeConcat(d: Decoder, a: seq<Byte>, b: seq<Byte>)
    ensures Decode(d, a + b).0 == Decode(Decode(d, a).0, b).0
    ensures Decode(d, a + b).1 == Decode(d, a).1 + Decode(Decode(d, a).0, b).1
    decreases a
  {
    if a == [] {
      assert a + b == b;
    } else {
      assert (a + b)[0] == a[0] && (a + b)[1..] == a[1..] + b;
      var (next, text) := Step(d, a[0]);
      DecodeConcat(next, a[1..], b);
      var early, late := Decode(next, a[1..]).1, Decode(Decode(next, a[1..]).0, b).1;
      assert text + (early + late) == text + early + late;
    }
  }

  function EncodeChar(c: char): (bytes: seq<Byte>)
    ensures 1 <= |bytes| <= 4
  {
    var n := c as int;
    if n < 0x80 then [n]
    else if n < 0x800 then [0xC0 + n / 64, 0x80 + n % 64]
    else if n < 0x10000 then [0xE0 + n / 64 / 64, 0x80 + n / 64 % 64, 0x80 + n % 64]
    else [0xF0 + n / 64 / 64 / 64, 0x80 + n / 64 / 64 % 64, 0x80 + n / 64 % 64, 0x80 + n % 64]
  }

  function Encode(text: string): seq<Byte> {
    if text == "" then [] else EncodeChar(text[0]) + Encode(text[1..])
  }

  lemma {:induction false} EncodeConcat(a: string, b: string)
    ensures Encode(a + b) == Encode(a) + Encode(b)
  {
    if a == "" {
      assert a + b == b;
    } else {
      assert (a + b)[0] == a[0] && (a + b)[1..] == a[1..] + b;
      EncodeConcat(a[1..], b);
    }
  }

  lemma TwoBytes(d: Decoder, n: nat)
    requires d.needed == 0 && 0x80 <= n < 0x800
    ensures Step(d, 0xC0 + n / 64) == Await(d, 1, n / 64, 0x80, 0xBF)
    ensures Step(Await(d, 1, n / 64, 0x80, 0xBF).0, 0x80 + n % 64) == Emit(d, n as char)
  {
    assert (0x80 + n % 64) % 64 == n % 64;
    assert n / 64 * 64 + n % 64 == n;
  }

  lemma ThreeBytes(d: Decoder, n: nat)
    requires d.needed == 0 && 0x800 <= n < 0x10000 && IsScalar(n)
    ensures var d1 := Step(d, 0xE0 + n / 64 / 64).0;
            var d2 := Step(d1, 0x80 + n / 64 % 64).0;
            && Step(d, 0xE0 + n / 64 / 64).1 == "" == Step(d1, 0x80 + n / 64 % 64).1
            && Step(d2, 0x80 + n % 64) == Emit(d, n as char)
  {
    var m := n / 64;
    assert (0x80 + m % 64) % 64 == m % 64 && (0x80 + n % 64) % 64 == n % 64;
    assert m / 64 * 64 + m % 64 == m && m * 64 + n % 64 == n;
  }

  lemma FourBytes(d: Decoder, n: nat)
    requires d.needed == 0 && 0x10000 <= n < 0x110000
    ensures var d1 := Step(d, 0xF0 + n / 64 / 64 / 64).0;
            var d2 := Step(d1, 0x80 + n / 64 / 64 % 64).0;
            var d3 := Step(d2, 0x80 + n / 64 % 64).0;
            && Step(d, 0xF0 + n / 64 / 64 / 64).1 == "" == Step(d1, 0x80 + n / 64 / 64 % 64).1
            && Step(d2, 0x80 + n / 64 % 64).1 == ""
            && Step(d3, 0x80 + n % 64) == Emit(d, n as char)
  {
    var m := n / 64;
    var k := m / 64;
    assert (0x80 + k % 64) % 64 == k % 64 && (0x80 + m % 64) % 64 == m % 64 && (0x80 + n % 64) % 64 == n % 64;
    assert k / 64 * 64 + k % 64 == k && k * 64 + m % 64 == m && m * 64 + n % 64 == n;
  }

  lemma Silent(d: Decoder, b: Byte, rest: seq<Byte>)
    requires Step(d, b).1 == ""
    ensures Decode(d, [b] + rest) == Decode(Step(d, b).0, rest)
  {
    var after := Decode(Step(d, b).0, rest);
    assert ([b] + rest)[1..] == rest;
    assert "" + after.1 == after.1;
  }

  lemma Last(d: Decoder, b: Byte)
    ensures Decode(d, [b]) == Step(d, b)
  {
    assert [b][1..] == [];
    assert Step(d, b).1 + "" == Step(d, b).1;
  }

  lemma DecodeTwo(d: Decoder, a: Byte, b: Byte)
    requires Step(d, a).1 == ""
    ensures Decode(d, [a, b]) == Step(Step(d, a).0, b)
  {
    assert [a, b] == [a] + [b];
    Silent(d, a, [b]);
    Last(Step(d, a).0, b);
  }

  lemma DecodeThree(d: Decoder, a: Byte, b: Byte, c: Byte)
    requires Step(d, a).1 == "" && Step(Step(d, a).0, b).1 == ""
    ensures Decode(d, [a, b, c]) == Step(Step(Step(d, a).0, b).0, c)
  {
    assert [a, b, c] == [a] + [b, c];
    Silent(d, a, [b, c]);
    DecodeTwo(Step(d, a).0, b, c);
  }

  lemma DecodeFour(d: Decoder, a: Byte, b: Byte, c: Byte, e: Byte)
    requires Step(d, a).1 == "" && Step(Step(d, a).0, b).1 == "" && Step(Step(Step(d, a).0, b).0, c).1 == ""
    ensures Decode(d, [a, b, c, e]) == Step(Step(Step(Step(d, a).0, b).0, c).0, e)
  {
    assert [a, b, c, e] == [a] + [b, c, e];
    Silent(d, a, [b, c, e]);
    DecodeThree(Step(d, a).0, b, c, e);
  }

  lemma DecodeLong(d: Decoder, n: nat)
    requires d.needed == 0 && IsScalar(n) && 0x800 <= n
    ensures n < 0x10000 ==>
              Decode(d, [0xE0 + n / 64 / 64, 0x80 + n / 64 % 64, 0x80 + n % 64]) == Emit(d, n as char)
    ensures n >= 0x10000 ==>
              Decode(d, [0xF0 + n / 64 / 64 / 64, 0x80 + n / 64 / 64 % 64, 0x80 + n / 64 % 64, 0x80 + n % 64])
              == Emit(d, n as char)
  {
    if n < 0x10000 {
      ThreeBytes(d, n);
      DecodeThree(d, 0xE0 + n / 64 / 64, 0x80 + n / 64 % 64, 0x80 + n % 64);
    } else {
      FourBytes(d, n);
      DecodeFour(d, 0xF0 + n / 64 / 64 / 64, 0x80 + n / 64 / 64 % 64, 0x80 + n / 64 % 64, 0x80 + n % 64);
    }
  }

  lemma DecodeEncodedChar(d: Decoder, c: char)
    requires d.needed == 0
    ensures Decode(d, EncodeChar(c)) == Emit(d, c)
  {
    var n := c as int;
    if n < 0x80 {
      Last(d, n);
    } else if n < 0x800 {
      TwoBytes(d, n);
      DecodeTwo(d, 0xC0 + n / 64, 0x80 + n % 64);
    } else {
      DecodeLong(d, n);
    }
  }

  /** Decoding what was encoded gives the text back, unless it begins with a byte order mark. */
  lemma {:induction false} DecodeEncoded(d: Decoder, text: string)
    requires d.needed == 0 && (d.started || text == "" || text[0] != BYTE_ORDER_MARK)
    ensures Decode(d, Encode(text)).1 == text
    ensures Decode(d, Encode(text)).0.needed == 0
    decreases text
  {
    if text != "" {
      DecodeEncodedChar(d, text[0]);
      DecodeConcat(d, EncodeChar(text[0]), Encode(text[1..]));
      DecodeEncoded(Decode(d, EncodeChar(text[0])).0, text[1..]);
      assert text == [text[0]] + text[1..];
    }
  }
}
