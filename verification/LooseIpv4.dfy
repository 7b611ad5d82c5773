/** The numeric spellings of an IPv4 address that a resolver accepts, and the ranges they fall in. */
module LooseIpv4 {
  import opened Prelude
  import opened Text
  import opened Numerals
  import opened Bits

  const MAX_SAFE_INTEGER: nat := 0x1F_FFFF_FFFF_FFFF

  /** One part: hexadecimal behind `0x`, octal behind `0`, or decimal. */
  function ParsePart(part: string): Option<nat> {
    var value :=
      if |part| > 2 && part[0] == '0' && part[1] in ['x', 'X'] && IsNumeral(16, part[2..])
      then Some(Value(16, part[2..]))
      else if |part| > 1 && part[0] == '0' && IsNumeral(8, part[1..]) then Some(Value(8, part[1..]))
      else if IsCanonical(part) then Some(Value(10, part))
      else None;
    if value.Some? && value.value > MAX_SAFE_INTEGER then None else value
  }

  function ParseParts(parts: seq<string>): (values: Option<seq<nat>>)
    ensures values.Some? ==> |values.value| == |parts|
  {
    if parts == [] then Some([])
    else
      var early := ParseParts(parts[..|parts| - 1]);
      var last := ParsePart(parts[|parts| - 1]);
      if early.None? || last.None? then None else Some(early.value + [last.value])
  }

  function IfSafe(value: nat): Option<nat> {
    if value <= 9007199254740991 then Some(value) else None
  }

  /** What a part with these digits comes to behind `0x`. */
  lemma HexPartReads(s: string, digits: seq<nat>)
    requires s != "" && Spells(s, digits)
    ensures ParsePart("0x" + s) == ParsePart("0X" + s) == IfSafe(PlaceValue(16, digits))
  {
    SpelledIsRead(16, s, digits);
    assert ("0x" + s)[2..] == s && ("0X" + s)[2..] == s;
  }

  /** And behind `0`. */
  lemma OctalPartReads(s: string, digits: seq<nat>)
    requires s != "" && Spells(s, digits) && AllBelow(digits, 8)
    ensures ParsePart("0" + s) == IfSafe(PlaceValue(8, digits))
  {
    SpelledIsRead(8, s, digits);
    assert ("0" + s)[1..] == s && Digit(s[0]) < 8;
  }

  /** And alone. */
  lemma DecimalPartReads(s: string, digits: seq<nat>)
    requires s != "" && Spells(s, digits) && AllBelow(digits, 10) && (|s| > 1 ==> digits[0] != 0)
    ensures ParsePart(s) == IfSafe(PlaceValue(10, digits))
  {
    SpelledIsRead(10, s, digits);
    DigitIs(s[0], digits[0]);
    assert s[0] == '0' ==> digits[0] == 0;
  }

  /** And no other part is a number. */
  lemma OnlyPartsRead(part: string)
    requires ParsePart(part).Some?
    ensures || (|part| > 2 && part[..2] in {"0x", "0X"} && SpelledIn(16, part[2..]))
            || (|part| > 1 && part[..1] == "0" && SpelledIn(8, part[1..]))
            || (SpelledIn(10, part) && (|part| > 1 ==> part[0] != '0'))
  {
    if |part| > 2 && part[0] == '0' && part[1] in ['x', 'X'] && IsNumeral(16, part[2..]) {
      NumeralIsSpelled(16, part[2..]);
      assert part[..2] == [part[0], part[1]];
    } else if |part| > 1 && part[0] == '0' && IsNumeral(8, part[1..]) {
      NumeralIsSpelled(8, part[1..]);
    } else {
      NumeralIsSpelled(10, part);
    }
  }

  /** The number a sequence of base-256 digits denotes. */
  function BigEndian(octets: seq<nat>): nat {
    if octets == [] then 0 else BigEndian(octets[..|octets| - 1]) * 256 + octets[|octets| - 1]
  }

  ghost predicate AllOctets(s: seq<nat>) {
    forall i :: 0 <= i < |s| ==> s[i] < 256
  }

  type Ipv4 = s: seq<nat> | |s| == 4 witness [0, 0, 0, 0]

  /** Every leading part is an octet, the last one no wider than the octets that are left. */
  predicate InBounds(values: seq<nat>)
    requires 1 <= |values| <= 4
  {
    && (forall i :: 0 <= i < |values| - 1 ==> values[i] <= 0xff)
    && values[|values| - 1] < Power(256, 5 - |values|)
  }

  /** The part values of a spelling, when it is one. */
  function Parts(input: string): (values: Option<seq<nat>>)
    ensures values.Some? ==> 1 <= |values.value| <= 4 && InBounds(values.value)
  {
    var parts := Split(input, '.');
    if |parts| > 4 then None
    else
      var values := ParseParts(parts);
      if values.Some? && InBounds(values.value) then values else None
  }

  /** The address a spelling denotes: its leading parts are the first octets, its last part fills the others. */
  ghost predicate Denotes(values: seq<nat>, address: Ipv4)
    requires 1 <= |values| <= 4
  {
    var n := |values| - 1;
    AllOctets(address) && address[..n] == values[..n] && BigEndian(address[n..]) == values[n]
  }

  // ---- base 256 ------------------------------------------------------------------------------

  lemma NextOctet(x: nat, p: nat, y: nat, octet: nat)
    ensures (x * p + y) * 256 + octet == x * (p * 256) + (y * 256 + octet)
  {
  }

  lemma {:induction false} BigEndianConcat(a: seq<nat>, b: seq<nat>)
    ensures BigEndian(a + b) == BigEndian(a) * Power(256, |b|) + BigEndian(b)
  {
    if b == [] {
      assert a + b == a;
    } else {
      var front, last := b[..|b| - 1], b[|b| - 1];
      assert (a + b)[..|a + b| - 1] == a + front;
      BigEndianConcat(a, front);
      NextOctet(BigEndian(a), Power(256, |front|), BigEndian(front), last);
    }
  }

  lemma {:induction false} BigEndianBounded(s: seq<nat>)
    requires AllOctets(s)
    ensures BigEndian(s) < Power(256, |s|)
  {
    if s != [] {
      BigEndianBounded(s[..|s| - 1]);
    }
  }

  lemma {:induction false} BigEndianInjective(a: seq<nat>, b: seq<nat>)
    requires |a| == |b| && AllOctets(a) && AllOctets(b) && BigEndian(a) == BigEndian(b)
    ensures a == b
  {
    if a != [] {
      var n := |a| - 1;
      BigEndianInjective(a[..n], b[..n]);
      assert a == a[..n] + [a[n]] && b == b[..n] + [b[n]];
    }
  }

  lemma Digits(high: nat, low: nat, high2: nat, low2: nat, m: nat)
    requires low < m && low2 < m && high * m + low == high2 * m + low2
    ensures high == high2 && low == low2
  {
    Remainder(high, m, low);
    Remainder(high2, m, low2);
  }

  /** Positional value and octets determine each other. */
  lemma DenotesIsPositional(values: seq<nat>, address: Ipv4)
    requires 1 <= |values| <= 4 && AllOctets(values[..|values| - 1]) && AllOctets(address)
    requires values[|values| - 1] < Power(256, 5 - |values|)
    ensures var n := |values| - 1;
            Denotes(values, address) <==> BigEndian(address) == BigEndian(values[..n]) * Power(256, 4 - n) + values[n]
  {
    var n := |values| - 1;
    var high, low := address[..n], address[n..];
    assert address == high + low;
    BigEndianConcat(high, low);
    BigEndianBounded(low);
    if BigEndian(address) == BigEndian(values[..n]) * Power(256, 4 - n) + values[n] {
      Digits(BigEndian(high), BigEndian(low), BigEndian(values[..n]), values[n], Power(256, 4 - n));
      BigEndianInjective(high, values[..n]);
    }
  }

  // ---- parsing -------------------------------------------------------------------------------

  /** The octets of a value, highest first: shifted by 24, 16, 8 and 0 bits and masked. */
  function Ipv4From(value: int): Ipv4 {
    seq(4, i requires 0 <= i < 4 => And(ShiftRight(value, 24 - 8 * i), 0xff))
  }

  lemma Powers()
    ensures Power(2, 0) == 1 && Power(2, 8) == 256 && Power(2, 16) == 0x1_0000 && Power(2, 24) == 0x100_0000
    ensures Power(2, 32) == WORD
    ensures Power(256, 0) == 1 && Power(256, 1) == 256 && Power(256, 2) == 0x1_0000 && Power(256, 3) == 0x100_0000
    ensures Power(256, 4) == WORD
  {
    assert Power(2, 4) == 16;
    assert Power(2, 8) == 256;
    assert Power(2, 12) == 4096;
    assert Power(2, 16) == 0x1_0000;
    assert Power(2, 20) == 0x10_0000;
    assert Power(2, 24) == 0x100_0000;
    assert Power(2, 28) == 0x1000_0000;
  }

  lemma Four(address: Ipv4)
    ensures BigEndian(address) == ((address[0] * 256 + address[1]) * 256 + address[2]) * 256 + address[3]
  {
    assert address[..3][..2] == address[..2] && address[..2][..1] == address[..1] && address[..1][..0] == [];
    assert BigEndian(address[..1]) == address[0];
    assert BigEndian(address[..2]) == address[0] * 256 + address[1];
    assert BigEndian(address[..3]) == (address[0] * 256 + address[1]) * 256 + address[2];
  }

  lemma LowOctet(v: nat)
    ensures And(v, 0xff) == v % 256
  {
    Powers();
    AndLow(v, 8);
  }

  lemma Quarters(v: nat)
    requires v < WORD
    ensures v / 0x100_0000 < 256
    ensures ((v / 0x100_0000 * 256 + v / 0x1_0000 % 256) * 256 + v / 0x100 % 256) * 256 + v % 256 == v
  {
    var w := v / 0x100;
    var x := w / 0x100;
    assert v / 0x1_0000 == x && v / 0x100_0000 == x / 0x100;
  }

  lemma OctetAt(value: nat, i: nat, divisor: nat)
    requires value < WORD && i < 4 && divisor == Power(256, 3 - i)
    ensures Ipv4From(value)[i] == value / divisor % 256
  {
    var shift := 24 - 8 * i;
    PowerOfOctets(3 - i);
    assert shift == 8 * (3 - i);
    ShiftRightFits(value, shift);
    LowOctet(value / Power(2, shift));
  }

  lemma OctetsAre(value: nat)
    requires value < WORD
    ensures Ipv4From(value)
         == [value / 0x100_0000 % 256, value / 0x1_0000 % 256, value / 0x100 % 256, value % 256]
  {
    Powers();
    OctetAt(value, 0, 0x100_0000);
    OctetAt(value, 1, 0x1_0000);
    OctetAt(value, 2, 0x100);
    OctetAt(value, 3, 1);
  }

  lemma OctetsValue(value: nat, octets: Ipv4)
    requires value < WORD
    requires octets == [value / 0x100_0000 % 256, value / 0x1_0000 % 256, value / 0x100 % 256, value % 256]
    ensures AllOctets(octets) && BigEndian(octets) == value
  {
    Quarters(value);
    Four(octets);
  }

  /** Shifting and masking takes a 32-bit value apart into the octets that make it up. */
  lemma Ipv4FromIsBigEndian(value: nat)
    requires value < WORD
    ensures AllOctets(Ipv4From(value)) && BigEndian(Ipv4From(value)) == value
  {
    OctetsAre(value);
    OctetsValue(value, Ipv4From(value));
  }

  /** The fold over the leading parts. */
  function Combine(leading: seq<nat>): int {
    if leading == [] then 0 else BitOr(ShiftLeft(Combine(leading[..|leading| - 1]), 8), leading[|leading| - 1])
  }

  lemma CombineStep(total: nat, octet: nat, k: nat)
    requires k < 32 && Power(2, k) == 256 && total < 0x1_0000 && octet < 256
    ensures BitOr(ShiftLeft(total, k), octet) == total * 256 + octet
  {
    ShiftLeftFits(total, k);
    OrDisjoint(total, octet, k);
    BitOrFits(total * 256, octet);
  }

  lemma BoundOf(n: nat)
    requires n <= 3
    ensures Power(256, n) <= 0x100_0000 && (n <= 2 ==> Power(256, n) <= 0x1_0000)
  {
    Powers();
  }

  lemma {:induction false} CombineIsBigEndian(leading: seq<nat>)
    requires AllOctets(leading) && |leading| <= 3
    ensures Combine(leading) == BigEndian(leading) < Power(256, |leading|)
  {
    BigEndianBounded(leading);
    if leading != [] {
      var front := leading[..|leading| - 1];
      CombineIsBigEndian(front);
      BoundOf(|front|);
      Powers();
      CombineStep(BigEndian(front), leading[|leading| - 1], 8);
    }
  }

  /** The address of part values, with the fold and the floating-point powers of the source. */
  method Assemble(values: seq<nat>) returns (address: Option<Ipv4>)
    requires 1 <= |values| <= 4
    ensures address.Some? <==> InBounds(values)
    ensures address.Some? ==> Denotes(values, address.value)
  {
    var last := values[|values| - 1];
    var leading := values[..|values| - 1];
    if exists i :: 0 <= i < |leading| && leading[i] > 0xff {
      return None;
    }
    var remainingOctets := 4 - |leading|;
    PowerOfOctets(remainingOctets);
    if last >= Power(2, 8 * remainingOctets) {
      return None;
    }
    CombineIsBigEndian(leading);
    Fits(BigEndian(leading), last, |leading|);
    var combined := Combine(leading) * Power(2, 8 * remainingOctets) + last;
    if combined > 0xffffffff {
      assert false;
    }
    CombinedDenotes(values, combined);
    return Some(Ipv4From(combined));
  }

  method ParseAll(parts: seq<string>) returns (values: Option<seq<nat>>)
    ensures values == ParseParts(parts)
  {
    values := Some([]);
    for i := 0 to |parts|
      invariant values.Some? && ParseParts(parts[..i]) == values
    {
      assert parts[..i + 1][..i] == parts[..i];
      var value := ParsePart(parts[i]);
      if value.None? {
        PartsNeedAll(parts, i + 1);
        return None;
      }
      values := Some(values.value + [value.value]);
    }
    assert parts[..|parts|] == parts;
  }

  /** Parsing computes the denoted address. */
  method ParseLooseIpv4(input: string) returns (address: Option<Ipv4>)
    ensures address.Some? <==> Parts(input).Some?
    ensures address.Some? ==> Denotes(Parts(input).value, address.value)
  {
    var parts := Split(input, '.');
    if |parts| > 4 {
      return None;
    }
    var values := ParseAll(parts);
    if values.None? {
      return None;
    }
    address := Assemble(values.value);
  }

  /** The last part counts as it stands, the leading parts in units of the octets it fills. */
  function Positional(values: seq<nat>): nat
    requires 1 <= |values| <= 4
  {
    BigEndian(values[..|values| - 1]) * Power(256, 5 - |values|) + values[|values| - 1]
  }

  /** The 32-bit value of a spelling. */
  function Loose(input: string): (value: Option<nat>)
    ensures value.Some? <==> Parts(input).Some?
  {
    match Parts(input)
    case None => None
    case Some(values) => Some(Positional(values))
  }

  lemma LooseIsWord(input: string)
    requires Loose(input).Some?
    ensures Loose(input).value < WORD
  {
    var values := Parts(input).value;
    BigEndianBounded(values[..|values| - 1]);
    Fits(BigEndian(values[..|values| - 1]), values[|values| - 1], |values| - 1);
  }

  /** The address a spelling denotes is the one with its value. */
  lemma DenotedIsLoose(input: string, address: Ipv4)
    requires Parts(input).Some?
    ensures Denotes(Parts(input).value, address) <==> AllOctets(address) && BigEndian(address) == Loose(input).value
  {
    if AllOctets(address) {
      DenotesIsPositional(Parts(input).value, address);
    }
  }

  /** The bounds are no stricter and no looser than they need be: within them, and only there, there is an address. */
  lemma InBoundsExactly(values: seq<nat>)
    requires 1 <= |values| <= 4
    ensures InBounds(values) <==> exists address: Ipv4 :: Denotes(values, address)
  {
    var n := |values| - 1;
    if InBounds(values) {
      BigEndianBounded(values[..n]);
      Fits(BigEndian(values[..n]), values[n], n);
      CombinedDenotes(values, Positional(values));
    }
    if address: Ipv4 :| Denotes(values, address) {
      BigEndianBounded(address[n..]);
      assert forall i :: 0 <= i < n ==> values[i] == address[..n][i];
    }
  }

  lemma CombinedDenotes(values: seq<nat>, combined: nat)
    requires 1 <= |values| <= 4 && InBounds(values) && combined < WORD
    requires combined == BigEndian(values[..|values| - 1]) * Power(256, 5 - |values|) + values[|values| - 1]
    ensures Denotes(values, Ipv4From(combined))
  {
    Ipv4FromIsBigEndian(combined);
    DenotesIsPositional(values, Ipv4From(combined));
  }

  lemma {:induction false} PartsNeedAll(parts: seq<string>, n: nat)
    requires n <= |parts| && ParseParts(parts[..n]).None?
    ensures ParseParts(parts).None?
    decreases |parts|
  {
    if n == |parts| {
      assert parts[..n] == parts;
    } else {
      assert parts[..|parts| - 1][..n] == parts[..n];
      PartsNeedAll(parts[..|parts| - 1], n);
    }
  }

  lemma PowerOfOctets(n: nat)
    requires n <= 4
    ensures Power(2, 8 * n) == Power(256, n)
  {
    Powers();
  }

  lemma Fits(high: nat, low: nat, n: nat)
    requires n <= 3 && high < Power(256, n) && low < Power(256, 4 - n)
    ensures 0 <= high * Power(256, 4 - n) + low < WORD
  {
    Powers();
  }

  // ---- ranges --------------------------------------------------------------------------------

  /** The 32-bit word of four octets, as shifts and ors make it. */
  function WordOf(address: Ipv4): nat {
    ToUint32(BitOr(BitOr(BitOr(ShiftLeft(address[0], 24), ShiftLeft(address[1], 16)), ShiftLeft(address[2], 8)),
                   address[3]))
  }

  function Mask(bits: nat): nat
    requires bits <= 32
  {
    if bits == 0 then 0 else ToUint32(ShiftLeft(0xffffffff, 32 - bits))
  }

  predicate InRange(address: Ipv4, prefix: Ipv4, bits: nat)
    requires bits <= 32
  {
    ToUint32(BitAnd(WordOf(address), Mask(bits))) == ToUint32(BitAnd(WordOf(prefix), Mask(bits)))
  }

  lemma ShiftWord(octet: nat, k: nat)
    requires octet < 256 && k <= 24
    ensures ToUint32(ShiftLeft(octet, k)) == octet * Power(2, k)
  {
    ShiftBound(octet, k);
    ShiftLeftWord(octet, k);
  }

  lemma Doubled(x: nat, y: nat, product: nat)
    requires product == x * y
    ensures x * (y * 2) == product * 2
  {
  }

  lemma {:induction false} PowerSum(a: nat, b: nat)
    ensures Power(2, a + b) == Power(2, a) * Power(2, b)
  {
    if b > 0 {
      PowerSum(a, b - 1);
      Doubled(Power(2, a), Power(2, b - 1), Power(2, a + b - 1));
    }
  }

  lemma Scale(x: nat, y: nat, p: nat)
    requires x <= y
    ensures x * p <= y * p
  {
    assert y * p == x * p + (y - x) * p;
  }

  lemma ShiftBound(octet: nat, k: nat)
    requires octet < 256 && k <= 24
    ensures octet * Power(2, k) < WORD
  {
    Powers();
    PowerSum(k, 24 - k);
    var p, q := Power(2, k), Power(2, 24 - k);
    Scale(1, q, p);
    Scale(octet, 255, p);
    assert q * p == p * q;
  }

  /** One more octet is put under the ones above it. */
  lemma WordStep(above: int, below: int, high: nat, octet: nat, k: nat)
    requires k <= 16 && octet < 256 && ToUint32(above) == high * Power(2, k + 8)
    requires ToUint32(below) == octet * Power(2, k) && (high * 256 + octet) * Power(2, k) < WORD
    ensures ToUint32(BitOr(above, below)) == (high * 256 + octet) * Power(2, k)
  {
    var p := Power(2, k);
    Powers();
    PowerSum(k, 8);
    Scale(octet, 255, p);
    Distribute(high, octet, p);
    OrDisjoint(high, octet * p, k + 8);
    BitOrWord(above, below);
  }

  lemma Distribute(high: nat, octet: nat, p: nat)
    ensures high * (p * 256) + octet * p == (high * 256 + octet) * p
  {
  }

  lemma WordBound(high: nat, octet: nat, k: nat)
    requires octet < 256 && k <= 24 && high < Power(2, 24 - k)
    ensures (high * 256 + octet) * Power(2, k) < WORD
  {
    var p, q := Power(2, k), Power(2, 24 - k);
    Powers();
    PowerSum(k, 24 - k);
    Scale(high * 256 + octet, q * 256 - 1, p);
    Expand(q, p);
  }

  lemma Expand(q: nat, p: nat)
    ensures (q * 256 - 1) * p == p * q * 256 - p
  {
    assert (q * 256 - 1) * p == q * 256 * p - p;
    assert q * 256 * p == p * q * 256;
  }

  lemma WordOfSteps(address: Ipv4, k3: nat, k2: nat, k1: nat)
    requires AllOctets(address) && k3 == 24 && k2 == 16 && k1 == 8
    ensures var x := BitOr(ShiftLeft(address[0], k3), ShiftLeft(address[1], k2));
            ToUint32(BitOr(BitOr(x, ShiftLeft(address[2], k1)), address[3])) == BigEndian(address) < WORD
  {
    var a, b, c, d := address[0], address[1], address[2], address[3];
    var x := BitOr(ShiftLeft(a, k3), ShiftLeft(b, k2));
    var y := BitOr(x, ShiftLeft(c, k1));
    Powers();
    ShiftWord(a, k3);
    ShiftWord(b, k2);
    ShiftWord(c, k1);
    IsWord(d);
    assert d * Power(2, 0) == d;
    WordBound(a, b, k2);
    WordStep(ShiftLeft(a, k3), ShiftLeft(b, k2), a, b, k2);
    WordBound(a * 256 + b, c, k1);
    WordStep(x, ShiftLeft(c, k1), a * 256 + b, c, k1);
    WordBound((a * 256 + b) * 256 + c, d, 0);
    WordStep(y, d, (a * 256 + b) * 256 + c, d, 0);
    Four(address);
  }

  /** Assembling octets with signed shifts and ors gives their big-endian value. */
  lemma WordOfIsBigEndian(address: Ipv4)
    requires AllOctets(address)
    ensures WordOf(address) == BigEndian(address) < WORD
  {
    WordOfSteps(address, 24, 16, 8);
  }

  lemma MaskIsOnes(bits: nat)
    requires bits <= 32
    ensures Mask(bits) == (Power(2, bits) - 1) * Power(2, 32 - bits)
  {
    if bits > 0 {
      OnesWord(bits);
      OnesShifted(0xffffffff, 32 - bits);
    }
  }

  lemma OnesTimes(q: nat)
    requires 0 < q < WORD
    ensures ToUint32((WORD - 1) * q) == WORD - q
  {
    assert (WORD - 1) * q == (q - 1) * WORD + (WORD - q);
    Remainder(q - 1, WORD, WORD - q);
  }

  lemma OnesShifted(ones: nat, k: nat)
    requires ones == WORD - 1 && k < 32 && Power(2, k) < WORD
    ensures ToUint32(ShiftLeft(ones, k)) == WORD - Power(2, k)
  {
    IsWord(ones);
    assert k % 32 == k;
    SameWord(ones * Power(2, k));
    OnesTimes(Power(2, k));
  }

  lemma LessOne(p: nat, q: nat)
    requires p > 0
    ensures (p - 1) * q == p * q - q
  {
  }

  lemma OnesWord(bits: nat)
    requires 0 < bits <= 32
    ensures var q := Power(2, 32 - bits);
            q < WORD && (Power(2, bits) - 1) * q == WORD - q
  {
    var p, q := Power(2, bits), Power(2, 32 - bits);
    Powers();
    PowerSum(bits, 32 - bits);
    Scale(2, p, q);
    LessOne(p, q);
  }

  /** An address cut down to its first `bits` bits. */
  lemma MaskedWord(v: nat, bits: nat)
    requires v < WORD && bits <= 32
    ensures ToUint32(BitAnd(v, Mask(bits))) == v / Power(2, 32 - bits) * Power(2, 32 - bits)
  {
    MaskIsOnes(bits);
    Powers();
    AndHigh(v, 32 - bits, bits);
    Below(v, Power(2, 32 - bits));
    BitAndWord(v, Mask(bits));
  }

  lemma Below(v: nat, q: nat)
    requires q >= 1
    ensures v / q * q <= v
  {
  }

  /** Two addresses are in one range exactly when their first `bits` bits agree, for every prefix length. */
  lemma InRangeIsPrefixEquality(address: Ipv4, prefix: Ipv4, bits: nat)
    requires AllOctets(address) && AllOctets(prefix) && bits <= 32
    ensures InRange(address, prefix, bits)
       <==> BigEndian(address) / Power(2, 32 - bits) == BigEndian(prefix) / Power(2, 32 - bits)
  {
    WordOfIsBigEndian(address);
    WordOfIsBigEndian(prefix);
    MaskedEquality(WordOf(address), WordOf(prefix), bits);
  }

  lemma MaskedEquality(v: nat, w: nat, bits: nat)
    requires v < WORD && w < WORD && bits <= 32
    ensures ToUint32(BitAnd(v, Mask(bits))) == ToUint32(BitAnd(w, Mask(bits)))
       <==> v / Power(2, 32 - bits) == w / Power(2, 32 - bits)
  {
    var q := Power(2, 32 - bits);
    var x, y := v / q, w / q;
    var a, b := ToUint32(BitAnd(v, Mask(bits))), ToUint32(BitAnd(w, Mask(bits)));
    assert a == x * q by {
      MaskedWord(v, bits);
    }
    assert b == y * q by {
      MaskedWord(w, bits);
    }
    EqualMultiples(a, b, x, y, q);
  }

  lemma EqualMultiples(a: int, b: int, x: int, y: int, q: nat)
    requires q >= 1 && a == x * q && b == y * q
    ensures a == b <==> x == y
  {
    SameMultiple(x, y, q);
  }

  lemma SameMultiple(x: int, y: int, q: nat)
    requires q >= 1
    ensures x * q == y * q ==> x == y
  {
    Multiple(x - y, q);
    assert (x - y) * q == x * q - y * q;
  }

  datatype Classification = Loopback | Private | Denied | Public

  datatype Range = Range(prefix: Ipv4, bits: nat)

  predicate InAny(ranges: seq<Range>, address: Ipv4) {
    exists i :: 0 <= i < |ranges| && ranges[i].bits <= 32 && InRange(address, ranges[i].prefix, ranges[i].bits)
  }

  function LoopbackRanges(): seq<Range> {
    [Range([127, 0, 0, 0], 8), Range([0, 0, 0, 0], 8)]
  }

  /** Link-local, multicast, reserved, documentation and benchmarking addresses. */
  function DeniedRanges(): seq<Range> {
    [Range([169, 254, 0, 0], 16), Range([224, 0, 0, 0], 4), Range([240, 0, 0, 0], 4), Range([192, 0, 2, 0], 24),
     Range([198, 51, 100, 0], 24), Range([203, 0, 113, 0], 24), Range([192, 0, 0, 0], 24), Range([198, 18, 0, 0], 15)]
  }

  function PrivateRanges(): seq<Range> {
    [Range([10, 0, 0, 0], 8), Range([172, 16, 0, 0], 12), Range([192, 168, 0, 0], 16), Range([100, 64, 0, 0], 10)]
  }

  function Classify(address: Ipv4): Classification {
    if InAny(LoopbackRanges(), address) then Loopback
    else if InAny(DeniedRanges(), address) then Denied
    else if InAny(PrivateRanges(), address) then Private
    else Public
  }

  /** A range as the interval of values behind its prefix. */
  ghost predicate InInterval(range: Range, value: nat) {
    range.bits <= 32 && BigEndian(range.prefix) <= value < BigEndian(range.prefix) + Power(2, 32 - range.bits)
  }

  ghost predicate InAnyInterval(ranges: seq<Range>, value: nat) {
    exists i :: 0 <= i < |ranges| && InInterval(ranges[i], value)
  }

  ghost predicate Aligned(range: Range) {
    range.bits <= 32 && AllOctets(range.prefix) && BigEndian(range.prefix) % Power(2, 32 - range.bits) == 0
  }

  lemma Between(v: nat, low: nat, size: nat)
    requires size >= 1 && low % size == 0
    ensures v / size == low / size <==> low <= v < low + size
  {
    var q := low / size;
    assert low == q * size && v == v / size * size + v % size;
    if low <= v < low + size {
      Remainder(q, size, v - low);
    }
  }

  /** Membership in aligned ranges is membership in their intervals. */
  lemma InAnyIsInterval(ranges: seq<Range>, address: Ipv4)
    requires AllOctets(address) && forall i :: 0 <= i < |ranges| ==> Aligned(ranges[i])
    ensures InAny(ranges, address) <==> InAnyInterval(ranges, BigEndian(address))
  {
    forall i | 0 <= i < |ranges|
      ensures InRange(address, ranges[i].prefix, ranges[i].bits) <==> InInterval(ranges[i], BigEndian(address))
    {
      InRangeIsPrefixEquality(address, ranges[i].prefix, ranges[i].bits);
      Between(BigEndian(address), BigEndian(ranges[i].prefix), Power(2, 32 - ranges[i].bits));
    }
  }

  lemma AlignedRange(a: nat, b: nat, c: nat, d: nat, bits: nat, size: nat)
    requires a < 256 && b < 256 && c < 256 && d < 256 && bits <= 32
    requires size == Power(2, 32 - bits) && (((a * 256 + b) * 256 + c) * 256 + d) % size == 0
    ensures Aligned(Range([a, b, c, d], bits))
  {
    Four([a, b, c, d]);
  }

  lemma Sizes()
    ensures Power(2, 28) == 0x1000_0000 && Power(2, 22) == 0x40_0000 && Power(2, 20) == 0x10_0000
    ensures Power(2, 17) == 0x2_0000
  {
    assert Power(2, 8) == 256;
    assert Power(2, 12) == 4096;
    assert Power(2, 16) == 0x1_0000;
    assert Power(2, 20) == 0x10_0000;
    assert Power(2, 24) == 0x100_0000;
  }

  lemma LoopbackIsAligned()
    ensures forall i :: 0 <= i < |LoopbackRanges()| ==> Aligned(LoopbackRanges()[i])
  {
    Powers();
    AlignedRange(127, 0, 0, 0, 8, 0x100_0000);
    AlignedRange(0, 0, 0, 0, 8, 0x100_0000);
  }

  lemma SmallDenied()
    ensures Aligned(Range([192, 0, 2, 0], 24)) && Aligned(Range([198, 51, 100, 0], 24))
    ensures Aligned(Range([203, 0, 113, 0], 24)) && Aligned(Range([192, 0, 0, 0], 24))
  {
    Powers();
    AlignedRange(192, 0, 2, 0, 24, 0x100);
    AlignedRange(198, 51, 100, 0, 24, 0x100);
    AlignedRange(203, 0, 113, 0, 24, 0x100);
    AlignedRange(192, 0, 0, 0, 24, 0x100);
  }

  lemma LargeDenied()
    ensures Aligned(Range([169, 254, 0, 0], 16)) && Aligned(Range([224, 0, 0, 0], 4))
    ensures Aligned(Range([240, 0, 0, 0], 4)) && Aligned(Range([198, 18, 0, 0], 15))
  {
    Powers();
    Sizes();
    AlignedRange(169, 254, 0, 0, 16, 0x1_0000);
    AlignedRange(224, 0, 0, 0, 4, 0x1000_0000);
    AlignedRange(240, 0, 0, 0, 4, 0x1000_0000);
    AlignedRange(198, 18, 0, 0, 15, 0x2_0000);
  }

  lemma DeniedIsAligned()
    ensures forall i :: 0 <= i < |DeniedRanges()| ==> Aligned(DeniedRanges()[i])
  {
    SmallDenied();
    LargeDenied();
  }

  lemma PrivateIsAligned()
    ensures forall i :: 0 <= i < |PrivateRanges()| ==> Aligned(PrivateRanges()[i])
  {
    Powers();
    Sizes();
    AlignedRange(10, 0, 0, 0, 8, 0x100_0000);
    AlignedRange(172, 16, 0, 0, 12, 0x10_0000);
    AlignedRange(192, 168, 0, 0, 16, 0x1_0000);
    AlignedRange(100, 64, 0, 0, 10, 0x40_0000);
  }

  /** Every address is classified by the interval its value lies in, whatever bits the masks keep. */
  lemma ClassifyIsByInterval(address: Ipv4)
    requires AllOctets(address)
    ensures var v := BigEndian(address);
            Classify(address) == if InAnyInterval(LoopbackRanges(), v) then Loopback
                                 else if InAnyInterval(DeniedRanges(), v) then Denied
                                 else if InAnyInterval(PrivateRanges(), v) then Private
                                 else Public
  {
    LoopbackIsAligned();
    DeniedIsAligned();
    PrivateIsAligned();
    InAnyIsInterval(LoopbackRanges(), address);
    InAnyIsInterval(DeniedRanges(), address);
    InAnyIsInterval(PrivateRanges(), address);
  }

  /** The interval of a range, once the value of its prefix and its size are numbers. */
  lemma IntervalIs(range: Range, low: nat, size: nat, v: nat)
    requires range.bits <= 32 && size == Power(2, 32 - range.bits)
    requires low == ((range.prefix[0] * 256 + range.prefix[1]) * 256 + range.prefix[2]) * 256 + range.prefix[3]
    ensures InInterval(range, v) <==> low <= v < low + size
  {
    Four(range.prefix);
  }

  lemma LoopbackIntervals(v: nat)
    ensures InAnyInterval(LoopbackRanges(), v)
       <==> 0x7f00_0000 <= v < 0x8000_0000 || v < 0x100_0000
  {
    Powers();
    var ranges := LoopbackRanges();
    IntervalIs(ranges[0], 0x7f00_0000, 0x100_0000, v);
    IntervalIs(ranges[1], 0, 0x100_0000, v);
  }

  lemma DeniedIntervals(v: nat)
    ensures InAnyInterval(DeniedRanges(), v)
       <==> || 0xa9fe_0000 <= v < 0xa9ff_0000 || 0xe000_0000 <= v < WORD
            || 0xc000_0200 <= v < 0xc000_0300 || 0xc633_6400 <= v < 0xc633_6500
            || 0xcb00_7100 <= v < 0xcb00_7200 || 0xc000_0000 <= v < 0xc000_0100
            || 0xc612_0000 <= v < 0xc614_0000
  {
    Powers();
    Sizes();
    var ranges := DeniedRanges();
    IntervalIs(ranges[0], 0xa9fe_0000, 0x1_0000, v);
    IntervalIs(ranges[1], 0xe000_0000, 0x1000_0000, v);
    IntervalIs(ranges[2], 0xf000_0000, 0x1000_0000, v);
    IntervalIs(ranges[3], 0xc000_0200, 0x100, v);
    IntervalIs(ranges[4], 0xc633_6400, 0x100, v);
    IntervalIs(ranges[5], 0xcb00_7100, 0x100, v);
    IntervalIs(ranges[6], 0xc000_0000, 0x100, v);
    IntervalIs(ranges[7], 0xc612_0000, 0x2_0000, v);
  }

  lemma PrivateIntervals(v: nat)
    ensures InAnyInterval(PrivateRanges(), v)
       <==> || 0xa00_0000 <= v < 0xb00_0000 || 0xac10_0000 <= v < 0xac20_0000
            || 0xc0a8_0000 <= v < 0xc0a9_0000 || 0x6440_0000 <= v < 0x6480_0000
  {
    Powers();
    Sizes();
    var ranges := PrivateRanges();
    IntervalIs(ranges[0], 0xa00_0000, 0x100_0000, v);
    IntervalIs(ranges[1], 0xac10_0000, 0x10_0000, v);
    IntervalIs(ranges[2], 0xc0a8_0000, 0x1_0000, v);
    IntervalIs(ranges[3], 0x6440_0000, 0x40_0000, v);
  }

  /** The classes said by octets: the allocations of RFC 6890 that the masks stand for. */
  lemma ClassifyByOctets(a: nat, b: nat, c: nat, d: nat)
    requires a < 256 && b < 256 && c < 256 && d < 256
    ensures Classify([a, b, c, d])
         == if a == 127 || a == 0 then Loopback
            else if || a >= 224 || (a == 169 && b == 254) || (a == 192 && b == 0 && (c == 0 || c == 2))
                    || (a == 198 && ((b == 51 && c == 100) || b == 18 || b == 19))
                    || (a == 203 && b == 0 && c == 113) then Denied
            else if || a == 10 || (a == 172 && 16 <= b < 32) || (a == 192 && b == 168)
                    || (a == 100 && 64 <= b < 128) then Private
            else Public
  {
    var address := [a, b, c, d];
    ClassifyIsByInterval(address);
    Four(address);
    LoopbackIntervals(BigEndian(address));
    DeniedIntervals(BigEndian(address));
    PrivateIntervals(BigEndian(address));
  }
}
