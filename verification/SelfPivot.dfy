/** Refusing a tunnel that would lead back into one of this process's own listeners. */
module SelfPivot {
  import opened Prelude
  import opened Text
  import opened Numerals
  import opened Bits
  import opened LooseIpv4

  const LOCAL_KEY := "\0local"

  function StripBrackets(host: string): string {
    if host != "" && host[0] == '[' && host[|host| - 1] == ']' then host[1..|host| - 1] else host
  }

  /** Without brackets, zone index and case. */
  function Bare(host: string): string {
    var inner := StripBrackets(Trim(host));
    ToLower(inner[..IndexFrom(inner, '%', 0)])
  }

  /** The dotted quad of a 32-bit value. */
  function Quad(value: int): string {
    Join(Decimals(Ipv4From(value)), ".")
  }

  function Normalized(input: string): Option<string> {
    match Loose(input)
    case None => None
    case Some(value) => Some(Quad(value))
  }

  predicate IsLoopbackName(value: string) {
    value == "localhost" || value == "localhost.localdomain" || value == "ip6-localhost" || value == "ip6-loopback"
  }

  predicate IsWildcard(value: string) {
    value == "0.0.0.0" || value == "::" || value == "*" || value == ""
  }

  predicate IsLocalHost(host: string) {
    IsLocal(Bare(host))
  }

  predicate IsLocal(value: string) {
    IsLoopbackName(value) ||
    match Normalized(value)
    case Some(ipv4) => "127." <= ipv4 || ipv4 == "0.0.0.0"
    case None =>
      || value == "::1" || value == "0:0:0:0:0:0:0:1" || value == "::"
      || (&& "::ffff:" <= value
          && var mapped := Normalized(value[7..]);
             mapped.Some? && "127." <= mapped.value)
  }

  function HostKey(host: string): string {
    var value := Bare(host);
    if IsLocalHost(value) then LOCAL_KEY
    else
      match Normalized(value)
      case Some(ipv4) => ipv4
      case None => value
  }

  function Show(n: int): string {
    if n < 0 then "-" + Decimal(-n) else Decimal(n)
  }

  function Key(hostKey: string, port: int): string {
    hostKey + "\0" + Show(port)
  }

  // ---- spellings and their canonical form ------------------------------------------------------

  predicate SpellingChar(c: char) {
    c == '.' || c == 'x' || c == 'X' || Digit(c) < 16
  }

  lemma NumeralChars(radix: nat, part: string, from: nat)
    requires radix <= 16 && from <= |part| && IsNumeral(radix, part[from..])
    ensures forall i :: from <= i < |part| ==> SpellingChar(part[i])
  {
    forall i | from <= i < |part| ensures SpellingChar(part[i]) {
      assert part[i] == part[from..][i - from];
    }
  }

  lemma PartChars(part: string)
    requires ParsePart(part).Some?
    ensures part != "" && forall i :: 0 <= i < |part| ==> SpellingChar(part[i])
  {
    if |part| > 2 && part[0] == '0' && part[1] in ['x', 'X'] && IsNumeral(16, part[2..]) {
      NumeralChars(16, part, 2);
      assert SpellingChar(part[0]) && SpellingChar(part[1]);
    } else if |part| > 1 && part[0] == '0' && IsNumeral(8, part[1..]) {
      NumeralChars(8, part, 1);
      assert SpellingChar(part[0]);
    } else {
      assert IsNumeral(10, part);
      assert part[0..] == part;
      NumeralChars(10, part, 0);
    }
  }

  lemma {:induction false} EachPart(parts: seq<string>, i: nat)
    requires ParseParts(parts).Some? && i < |parts|
    ensures ParsePart(parts[i]) == Some(ParseParts(parts).value[i])
    decreases |parts|
  {
    if i < |parts| - 1 {
      EachPart(parts[..|parts| - 1], i);
    }
  }

  lemma {:induction false} JoinChars(parts: seq<string>)
    requires parts != [] && forall i :: 0 <= i < |parts| ==> ParsePart(parts[i]).Some?
    ensures Join(parts, ".") != "" && forall i :: 0 <= i < |Join(parts, ".")| ==> SpellingChar(Join(parts, ".")[i])
  {
    PartChars(parts[0]);
    if |parts| > 1 {
      JoinChars(parts[1..]);
    }
  }

  lemma SpellingChars(input: string)
    requires Loose(input).Some?
    ensures input != "" && forall i :: 0 <= i < |input| ==> SpellingChar(input[i])
  {
    var parts := Split(input, '.');
    JoinOfSplit(input, '.');
    forall i | 0 <= i < |parts| ensures ParsePart(parts[i]).Some? {
      EachPart(parts, i);
    }
    JoinChars(parts);
  }

  lemma PlainTrims(value: string)
    requires value != "" && SpellingChar(value[0]) && SpellingChar(value[|value| - 1])
    ensures Trim(value) == value && StripBrackets(value) == value
  {
    assert TrimStart(value) == value;
  }

  lemma PlainHasNoZone(value: string)
    requires forall i :: 0 <= i < |value| ==> SpellingChar(value[i])
    ensures IndexFrom(value, '%', 0) == |value|
  {
    assert !SpellingChar('%');
  }

  lemma PlainIsBare(value: string)
    requires value != "" && ToLower(value) == value
    requires forall i :: 0 <= i < |value| ==> SpellingChar(value[i])
    ensures Bare(value) == value
  {
    PlainTrims(value);
    PlainHasNoZone(value);
    assert value[..|value|] == value;
  }

  /** A bare spelling is not changed by being made bare again. */
  lemma SpellingIsBare(host: string)
    requires Loose(Bare(host)).Some?
    ensures Bare(Bare(host)) == Bare(host)
  {
    SpellingChars(Bare(host));
    BareIsLower(host);
    PlainIsBare(Bare(host));
  }

  lemma BareIsLower(host: string)
    ensures ToLower(Bare(host)) == Bare(host)
  {
    var inner := StripBrackets(Trim(host));
    LowerTwice(inner[..IndexFrom(inner, '%', 0)]);
  }

  lemma PartOfDecimal(n: nat)
    requires n <= MAX_SAFE_INTEGER
    ensures ParsePart(Decimal(n)) == Some(n)
  {
    ValueOfDecimal(n);
  }

  lemma {:induction false} PartwiseParses(parts: seq<string>, values: seq<nat>)
    requires |parts| == |values| && forall i :: 0 <= i < |parts| ==> ParsePart(parts[i]) == Some(values[i])
    ensures ParseParts(parts) == Some(values)
    decreases |parts|
  {
    if parts != [] {
      var n := |parts| - 1;
      PartwiseParses(parts[..n], values[..n]);
      assert values[..n] + [values[n]] == values;
    }
  }

  lemma ParseDecimals(values: seq<nat>)
    requires AllOctets(values)
    ensures ParseParts(Decimals(values)) == Some(values)
  {
    var parts := Decimals(values);
    forall i | 0 <= i < |parts| ensures ParsePart(parts[i]) == Some(values[i]) {
      PartOfDecimal(values[i]);
    }
    PartwiseParses(parts, values);
  }

  /** The octets of a value are a spelling of it. */
  lemma OctetsSpell(value: nat)
    requires value < WORD
    ensures var octets := Ipv4From(value); AllOctets(octets) && InBounds(octets) && Positional(octets) == value
  {
    Ipv4FromIsBigEndian(value);
    Powers();
  }

  /** Reading a printed dotted quad gives its value: normalizing is idempotent. */
  lemma QuadReadsBack(value: nat)
    requires value < WORD
    ensures Split(Quad(value), '.') == Decimals(Ipv4From(value))
    ensures Loose(Quad(value)) == Some(value) && Normalized(Quad(value)) == Some(Quad(value))
  {
    OctetsSpell(value);
    QuadSplits(Ipv4From(value));
    ParseDecimals(Ipv4From(value));
  }

  lemma QuadSplits(octets: seq<nat>)
    requires |octets| == 4
    ensures Split(Join(Decimals(octets), "."), '.') == Decimals(octets)
  {
    forall i | 0 <= i < 4 ensures '.' !in Decimals(octets)[i] {
      DecimalIsDotless(octets[i]);
    }
    SplitOfJoin(Decimals(octets), '.');
  }

  /** Every spelling is normalized to the dotted quad of its value, so equal values and only they share one. */
  lemma NormalFormIsCanonical(a: string, b: string)
    requires Loose(a).Some? && Loose(b).Some?
    ensures Normalized(a) == Normalized(b) <==> Loose(a) == Loose(b)
  {
    LooseIsWord(a);
    LooseIsWord(b);
    QuadReadsBack(Loose(a).value);
    QuadReadsBack(Loose(b).value);
  }

  predicate LocalValue(value: nat) {
    value / 0x100_0000 == 127 || value == 0
  }

  lemma FirstPart(parts: seq<string>, head: string)
    requires |parts| > 1 && Free(parts, '.') && '.' !in head
    ensures head + "." <= Join(parts, ".") <==> parts[0] == head
  {
    var joined := Join(parts, ".");
    assert joined == parts[0] + "." + Join(parts[1..], ".");
    SplitOff(parts[0], Join(parts[1..], "."), '.');
    if head + "." <= joined {
      assert joined == head + "." + joined[|head| + 1..];
      SplitOff(head, joined[|head| + 1..], '.');
    }
  }

  lemma DecimalOf127(n: nat)
    ensures Decimal(n) == "127" <==> n == 127
  {
    assert "127"[..2] == "12" && "12"[..1] == "1" && "1"[..0] == "";
    assert Value(10, "127") == 127;
    DecimalOfValue("127");
    ValueOfDecimal(n);
  }

  lemma QuadStartsWithOctet(value: nat)
    requires value < WORD
    ensures "127." <= Quad(value) <==> Ipv4From(value)[0] == 127
  {
    var parts := Decimals(Ipv4From(value));
    QuadReadsBack(value);
    JoinOfSplit(Quad(value), '.');
    FirstPart(parts, "127");
    assert "127" + "." == "127.";
    DecimalOf127(Ipv4From(value)[0]);
  }

  lemma QuadOfZero()
    ensures Quad(0) == "0.0.0.0"
  {
    OctetsAre(0);
    var parts := Decimals(Ipv4From(0));
    assert parts == ["0", "0", "0", "0"];
    assert parts[1..] == ["0", "0", "0"] && parts[1..][1..] == ["0", "0"] && parts[1..][1..][1..] == ["0"];
  }

  lemma TopOctet(value: nat)
    requires value < WORD
    ensures Ipv4From(value)[0] == value / 0x100_0000
  {
    OctetsAre(value);
    assert value / 0x100_0000 < 256;
  }

  lemma QuadIsZero(value: nat)
    requires value < WORD
    ensures Quad(value) == "0.0.0.0" <==> value == 0
  {
    QuadOfZero();
    QuadReadsBack(value);
    QuadReadsBack(0);
  }

  lemma QuadIsLocal(value: nat)
    requires value < WORD
    ensures "127." <= Quad(value) || Quad(value) == "0.0.0.0" <==> LocalValue(value)
  {
    QuadStartsWithOctet(value);
    TopOctet(value);
    QuadIsZero(value);
  }

  lemma SpellingKey(host: string)
    requires Loose(Bare(host)).Some?
    ensures var value := Loose(Bare(host)).value;
            && value < WORD
            && (IsLocalHost(host) <==> LocalValue(value))
            && HostKey(host) == if LocalValue(value) then LOCAL_KEY else Quad(value)
  {
    var bare := Bare(host);
    SpellingIsBare(host);
    SpellingChars(bare);
    LooseIsWord(bare);
    QuadIsLocal(Loose(bare).value);
    NamesAreNotSpellings(bare);
  }

  lemma NamesAreNotSpellings(value: string)
    ensures IsLoopbackName(value) ==> value != "" && !SpellingChar(value[0])
  {
  }

  /**
   * Two IPv4 spellings, of any number of parts and in any radix, get one key exactly when they
   * denote one address or both denote this machine.
   */
  lemma SpellingsShareAKey(a: string, b: string)
    requires Loose(Bare(a)).Some? && Loose(Bare(b)).Some?
    ensures HostKey(a) == HostKey(b)
       <==> (Loose(Bare(a)) == Loose(Bare(b))
             || (LocalValue(Loose(Bare(a)).value) && LocalValue(Loose(Bare(b)).value)))
    ensures HostKey(Bare(a)) == HostKey(a)
  {
    SpellingKey(a);
    SpellingKey(b);
    SpellingIsBare(a);
    NormalFormIsCanonical(Bare(a), Bare(b));
    QuadStartsWithDigit(Loose(Bare(a)).value);
    QuadStartsWithDigit(Loose(Bare(b)).value);
  }

  lemma QuadStartsWithDigit(value: nat)
    requires value < WORD
    ensures Quad(value) != LOCAL_KEY
  {
    QuadReadsBack(value);
    var parts := Decimals(Ipv4From(value));
    assert Quad(value) == parts[0] + "." + Join(parts[1..], ".");
    assert Quad(value)[0] == parts[0][0];
    DecimalIsDotless(Ipv4From(value)[0]);
  }

  // ---- names and IPv6 spellings ------------------------------------------------------------------

  const LOOPBACK_NAMES := {"localhost", "localhost.localdomain", "ip6-localhost", "ip6-loopback"}
  const LOCAL_IPV6 := {"::1", "0:0:0:0:0:0:0:1", "::"}

  /** An IPv6 spelling of an IPv4 loopback address: behind `::ffff:`, in any form IPv4 has. */
  ghost predicate IsMappedLoopback(value: string) {
    exists spelling ::
      value == "::ffff:" + spelling && Loose(spelling).Some? && Loose(spelling).value / 0x100_0000 == 127
  }

  /** What a bare host stands for this machine by. */
  ghost predicate IsThisMachine(value: string) {
    || value in LOOPBACK_NAMES || value in LOCAL_IPV6 || IsMappedLoopback(value)
    || (Loose(value).Some? && LocalValue(Loose(value).value))
  }

  lemma SpelledHasNoColon(value: string)
    ensures Loose(value).Some? ==> ':' !in value && !IsLoopbackName(value)
  {
    assert !SpellingChar(':');
    NamesAreNotSpellings(value);
    if Loose(value).Some? {
      SpellingChars(value);
    }
  }

  lemma MappedIsLoopback(value: string)
    requires "::ffff:" <= value
    ensures Normalized(value[7..]).Some? && "127." <= Normalized(value[7..]).value <==> IsMappedLoopback(value)
  {
    var spelling := value[7..];
    assert value == "::ffff:" + spelling;
    assert forall other :: value == "::ffff:" + other ==> other == value[7..];
    if Loose(spelling).Some? {
      LooseIsWord(spelling);
      QuadStartsWithOctet(Loose(spelling).value);
      TopOctet(Loose(spelling).value);
    }
  }

  lemma NamesInSet(value: string)
    ensures value in LOOPBACK_NAMES <==> IsLoopbackName(value)
  {
  }

  lemma LocalHasColon(value: string)
    requires value in LOCAL_IPV6
    ensures ':' in value
  {
    if value == "::1" {
      assert value[0] == ':';
    } else if value == "::" {
      assert value[0] == ':';
    } else {
      assert value == "0:0:0:0:0:0:0:1" && value[1] == ':';
    }
  }

  lemma MappedHasColon(value: string)
    requires IsMappedLoopback(value)
    ensures ':' in value && "::ffff:" <= value
  {
    var spelling :| value == "::ffff:" + spelling && Loose(spelling).Some?;
    assert value[0] == ':';
  }

  lemma ColonNames(value: string)
    ensures value in LOCAL_IPV6 || IsMappedLoopback(value) ==> ':' in value
    ensures IsMappedLoopback(value) ==> "::ffff:" <= value
    ensures value in LOOPBACK_NAMES <==> IsLoopbackName(value)
  {
    NamesInSet(value);
    if value in LOCAL_IPV6 {
      LocalHasColon(value);
    }
    if IsMappedLoopback(value) {
      MappedHasColon(value);
    }
  }

  lemma LocalIs(value: string)
    ensures IsLocal(value) <==> IsThisMachine(value)
  {
    SpelledHasNoColon(value);
    ColonNames(value);
    if Loose(value).Some? {
      LooseIsWord(value);
      QuadIsLocal(Loose(value).value);
    } else if "::ffff:" <= value {
      MappedIsLoopback(value);
    }
  }

  /** A host is local exactly when what it is bare of brackets, zone and case stands for this machine. */
  lemma LocalExactly(host: string)
    ensures IsLocalHost(host) <==> IsThisMachine(Bare(host))
  {
    LocalIs(Bare(host));
  }

  lemma CutAtZone(name: string, zone: string)
    requires '%' !in name && (zone == "" || zone[0] == '%')
    ensures (name + zone)[..IndexFrom(name + zone, '%', 0)] == name
  {
    var whole := name + zone;
    assert zone != "" ==> whole[|name|] == '%';
    assert forall i :: 0 <= i < |name| ==> whole[i] == name[i];
    assert IndexFrom(whole, '%', 0) == |name|;
  }

  /** Bracketed or not, in any case, with a zone and white space around it: a host is bared to its name. */
  lemma BareSpelled(a: string, name: string, zone: string, b: string)
    requires Blank(a) && Blank(b) && name != "" && name[0] != '[' && '%' !in name
    requires zone == "" || zone[0] == '%'
    ensures Bare(a + ("[" + (name + zone) + "]") + b) == ToLower(name)
    ensures IsBare(name + zone) ==> Bare(a + (name + zone) + b) == ToLower(name)
  {
    var whole := name + zone;
    CutAtZone(name, zone);
    BracketsGo(whole);
    TrimBare(a, "[" + whole + "]", b);
    if IsBare(whole) {
      TrimBare(a, whole, b);
      assert whole[0] == name[0];
    }
  }

  lemma BracketsGo(whole: string)
    ensures IsBare("[" + whole + "]") && StripBrackets("[" + whole + "]") == whole
  {
    var bracketed := "[" + whole + "]";
    assert bracketed[1..|bracketed| - 1] == whole && bracketed[|bracketed| - 1] == ']';
  }

  /** What a host is a key of: this machine, an IPv4 address, or a name of its own. */
  datatype Identity = Machine | Address(value: nat) | Named(name: string)

  ghost function IdentityOf(host: string): Identity {
    var value := Bare(host);
    if IsThisMachine(Bare(value)) || value == LOCAL_KEY then Machine
    else if Loose(value).Some? then Address(Loose(value).value)
    else Named(value)
  }

  lemma KeyOfIdentity(host: string)
    ensures match IdentityOf(host)
            case Machine => HostKey(host) == LOCAL_KEY
            case Address(value) => value < WORD && HostKey(host) == Quad(value)
            case Named(name) => HostKey(host) == name && name != LOCAL_KEY && Loose(name).None?
  {
    var value := Bare(host);
    LocalExactly(value);
    LocalKeyIsNoSpelling();
    if Loose(value).Some? {
      LooseIsWord(value);
    }
  }

  lemma LocalKeyIsNoSpelling()
    ensures Loose(LOCAL_KEY).None?
  {
    assert LOCAL_KEY[0] == '\0' && !SpellingChar('\0');
    if Loose(LOCAL_KEY).Some? {
      SpellingChars(LOCAL_KEY);
    }
  }

  /** Two hosts of any kind share a key exactly when they are this machine, one address, or one name. */
  lemma KeysAreIdentities(a: string, b: string)
    ensures HostKey(a) == HostKey(b) <==> IdentityOf(a) == IdentityOf(b)
  {
    KeyOfIdentity(a);
    KeyOfIdentity(b);
    AddressKey(a);
    AddressKey(b);
  }

  lemma AddressKey(host: string)
    ensures var id := IdentityOf(host);
            id.Address? ==> id.value < WORD && HostKey(host) != LOCAL_KEY && Loose(HostKey(host)) == Some(id.value)
  {
    KeyOfIdentity(host);
    if IdentityOf(host).Address? {
      QuadReadsBack(IdentityOf(host).value);
      QuadStartsWithDigit(IdentityOf(host).value);
    }
  }

  lemma AfterMark(x: string, s: string, mark: char)
    requires mark !in s
    ensures (x + [mark] + s)[|x|] == mark
    ensures forall i :: |x| < i < |x| + 1 + |s| ==> (x + [mark] + s)[i] != mark
  {
    forall i | |x| < i < |x| + 1 + |s| ensures (x + [mark] + s)[i] != mark {
      assert (x + [mark] + s)[i] == s[i - |x| - 1];
    }
  }

  lemma LastMark(x: string, s: string, y: string, t: string, mark: char)
    requires mark !in s && mark !in t && x + [mark] + s == y + [mark] + t
    ensures x == y && s == t
  {
    var whole := x + [mark] + s;
    AfterMark(x, s, mark);
    AfterMark(y, t, mark);
    assert |x| == |y|;
    assert whole[..|x|] == x && whole[|x| + 1..] == s;
    assert whole[..|y|] == y && whole[|y| + 1..] == t;
  }

  lemma ShowReadsBack(p: int, q: int)
    ensures '\0' !in Show(p) && (Show(p) == Show(q) ==> p == q)
  {
    DecimalIsDotless(if p < 0 then -p else p);
    ValueOfDecimal(if p < 0 then -p else p);
    ValueOfDecimal(if q < 0 then -q else q);
    if p < 0 && q < 0 {
      assert Show(p)[1..] == Decimal(-p) && Show(q)[1..] == Decimal(-q);
    } else if p < 0 {
      assert Show(p)[0] == '-' && Digit(Decimal(q)[0]) < 10;
    } else if q < 0 {
      assert Show(q)[0] == '-' && Digit(Decimal(p)[0]) < 10;
    }
  }

  /** One string for host and port loses nothing. */
  lemma KeyIsInjective(a: string, p: int, b: string, q: int)
    ensures Key(a, p) == Key(b, q) <==> a == b && p == q
  {
    ShowReadsBack(p, q);
    ShowReadsBack(q, p);
    if Key(a, p) == Key(b, q) {
      LastMark(a, Show(p), b, Show(q), '\0');
    }
  }

  // ---- the registry ----------------------------------------------------------------------------

  lemma NormalizedBy(input: string, values: seq<nat>)
    requires |Split(input, '.')| <= 4 && ParseParts(Split(input, '.')) == Some(values)
    ensures 1 <= |values| <= 4
    ensures Normalized(input) == if InBounds(values) then Some(Quad(Positional(values))) else None
  {
  }

  /** The second parser, with its own loop and the octets joined at the end. */
  method NormalizeIpv4(input: string) returns (quad: Option<string>)
    ensures quad == Normalized(input)
  {
    var parts := Split(input, '.');
    if |parts| > 4 {
      return None;
    }
    var values: seq<nat> := [];
    for i := 0 to |parts|
      invariant ParseParts(parts[..i]) == Some(values)
    {
      assert parts[..i + 1][..i] == parts[..i];
      var value := ParsePart(parts[i]);
      if value.None? {
        PartsNeedAll(parts, i + 1);
        return None;
      }
      values := values + [value.value];
    }
    assert parts[..|parts|] == parts;
    NormalizedBy(input, values);
    quad := Quadruple(values);
  }

  method Quadruple(values: seq<nat>) returns (quad: Option<string>)
    requires 1 <= |values| <= 4
    ensures quad == if InBounds(values) then Some(Quad(Positional(values))) else None
  {
    var last := values[|values| - 1];
    var leading := values[..|values| - 1];
    if exists i :: 0 <= i < |leading| && leading[i] > 0xff {
      return None;
    }
    var remaining := 4 - |leading|;
    PowerOfOctets(remaining);
    if last >= Power(2, 8 * remaining) {
      return None;
    }
    CombineIsBigEndian(leading);
    Fits(BigEndian(leading), last, |leading|);
    var combined := Combine(leading) * Power(2, 8 * remaining) + last;
    if combined > 0xffffffff {
      assert false;
    }
    return Some(Join(Decimals(Ipv4From(combined)), "."));
  }

  function KeyOf(listener: (string, int)): string {
    Key(HostKey(listener.0), listener.1)
  }

  ghost function Image<A(!new), B>(f: A -> B, s: set<A>): set<B> {
    set x | x in s :: f(x)
  }

  lemma ImageAdd<A(!new), B>(f: A -> B, s: set<A>, a: A)
    ensures Image(f, s + {a}) == Image(f, s) + {f(a)}
  {
  }

  /** Some own listener is reached under this host and port. */
  ghost predicate Owns(owned: set<(string, int)>, host: string, port: int) {
    exists l :: l in owned && HostKey(l.0) == HostKey(host) && l.1 == port
  }

  lemma OwnedKey(listener: (string, int), host: string, port: int)
    ensures KeyOf(listener) == Key(HostKey(host), port) <==> HostKey(listener.0) == HostKey(host) && listener.1 == port
  {
    KeyIsInjective(HostKey(listener.0), listener.1, HostKey(host), port);
  }

  lemma OwnsByKey(owned: set<(string, int)>, host: string, port: int)
    ensures Key(HostKey(host), port) in Image(KeyOf, owned) <==> Owns(owned, host, port)
  {
    forall l | l in owned
      ensures KeyOf(l) == Key(HostKey(host), port) <==> HostKey(l.0) == HostKey(host) && l.1 == port
    {
      OwnedKey(l, host, port);
    }
  }

  datatype Error = ListenerHost | ListenerPort

  class Listeners {
    var listeners: set<string>
    var wildcardPorts: set<int>
    /** The bare hosts and ports behind the keys. */
    ghost var owned: set<(string, int)>

    ghost predicate Valid()
      reads this
    {
      listeners == Image(KeyOf, owned)
    }

    constructor ()
      ensures Valid() && owned == {} && wildcardPorts == {}
    {
      listeners, wildcardPorts, owned := {}, {}, {};
    }

    method Register(host: string, port: int) returns (r: Result<(), Error>)
      requires Valid()
      modifies this
      ensures Valid()
      ensures r.Ok? <==> Trim(host) != "" && 1 <= port <= 65535
      ensures r.Err? ==> owned == old(owned) && wildcardPorts == old(wildcardPorts)
      ensures r.Ok? && Bare(host) in {"0.0.0.0", "::", "*", ""} ==>
                owned == old(owned) && wildcardPorts == old(wildcardPorts) + {port}
      ensures r.Ok? && Bare(host) !in {"0.0.0.0", "::", "*", ""} ==>
                owned == old(owned) + {(Bare(host), port)} && wildcardPorts == old(wildcardPorts)
    {
      if Trim(host) == "" {
        return Err(ListenerHost);
      }
      if port < 1 || port > 65535 {
        return Err(ListenerPort);
      }
      var value := Bare(host);
      if IsWildcard(value) {
        wildcardPorts := wildcardPorts + {port};
        return Ok(());
      }
      Add(value, port);
      return Ok(());
    }

    method Add(value: string, port: int)
      requires Valid()
      modifies this`listeners, this`owned
      ensures Valid() && owned == old(owned) + {(value, port)}
    {
      listeners := listeners + {Key(HostKey(value), port)};
      ImageAdd(KeyOf, owned, (value, port));
      owned := owned + {(value, port)};
    }

    /** A target is a pivot exactly when a wildcard port meets a local host, or some own listener has its key. */
    method IsSelfPivot(host: string, port: int) returns (pivot: bool)
      requires Valid()
      ensures pivot <==> (port in wildcardPorts && IsLocalHost(host)) || Owns(owned, host, port)
    {
      OwnsByKey(owned, host, port);
      if listeners == {} && wildcardPorts == {} {
        return false;
      }
      if port in wildcardPorts && IsLocalHost(host) {
        return true;
      }
      return Key(HostKey(host), port) in listeners;
    }

    /** Afterwards no target is a pivot. */
    method Clear()
      modifies this
      ensures Valid() && owned == {} && wildcardPorts == {}
      ensures forall host, port :: !Owns(owned, host, port)
    {
      listeners, wildcardPorts, owned := {}, {}, {};
    }
  }
}
