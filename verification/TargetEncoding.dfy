/** The destination field of a SOCKS5 request (sections 4 and 5 of RFC 1928), and how a proxy reads it. */
module TargetEncoding {
  import opened Prelude
  import opened Text
  import opened Numerals
  import opened Utf8
  import opened Endpoint

  const ATYP_IPV4: Byte := 1
  const ATYP_DOMAIN: Byte := 3
  const ATYP_IPV6: Byte := 4
  const MAX_FIELD_BYTES := 255

  // ---- IPv6 text -----------------------------------------------------------------------------

  /** How many leading characters are hexadecimal digits. */
  function HexRun(s: string, from: nat): (n: nat)
    requires from <= |s|
    ensures from <= n <= |s| && (forall i :: from <= i < n ==> IsHexDigit(s[i])) && (n < |s| ==> !IsHexDigit(s[n]))
    decreases |s| - from
  {
    if from == |s| || !IsHexDigit(s[from]) then from else HexRun(s, from + 1)
  }

  /** `parseInt` in base 16: what leading digits there are; without any, not a number. */
  function ParseHex(group: string): Option<nat> {
    var n := HexRun(group, 0);
    if n == 0 then None else Some(Value(16, group[..n]))
  }

  function Words(groups: seq<string>): (words: seq<Option<nat>>)
    ensures |words| == |groups| && forall i :: 0 <= i < |groups| ==> words[i] == ParseHex(groups[i])
  {
    seq(|groups|, i requires 0 <= i < |groups| => ParseHex(groups[i]))
  }

  function Groups(text: string): seq<string> {
    if text == "" then [] else Split(text, ':')
  }

  function Zeros(n: int): (words: seq<nat>)
    ensures |words| == (if n > 0 then n else 0) && forall i :: 0 <= i < |words| ==> words[i] == 0
  {
    seq(if n > 0 then n else 0, _ => 0)
  }

  function Somes(words: seq<nat>): (r: seq<Option<nat>>)
    ensures |r| == |words| && forall i :: 0 <= i < |words| ==> r[i] == Some(words[i])
  {
    seq(|words|, i requires 0 <= i < |words| => Some(words[i]))
  }

  function Values(words: seq<Option<nat>>): (r: seq<nat>)
    requires forall i :: 0 <= i < |words| ==> words[i].Some?
    ensures |r| == |words| && forall i :: 0 <= i < |words| ==> words[i] == Some(r[i])
  {
    seq(|words|, i requires 0 <= i < |words| && words[i].Some? => words[i].value)
  }

  /** The words between the brackets; `None` stands for a group that is not a number. */
  function InnerWords(inner: string): seq<Option<nat>> {
    var halves := SplitDouble(inner);
    var head := Groups(halves[0]);
    if |halves| == 1 then Words(head)
    else
      var tail := Groups(halves[1]);
      Words(head) + Somes(Zeros(8 - |head| - |tail|)) + Words(tail)
  }

  function EncodeIpv6(host: string): (words: Option<seq<nat>>)
    requires IsBracketed(host)
    ensures words.Some? ==> |words.value| == 8
  {
    var words := InnerWords(host[1..|host| - 1]);
    if |words| != 8 || exists i :: 0 <= i < |words| && words[i].None? then None else Some(Values(words))
  }

  // ---- the textual address, independently (section 2.2 of RFC 4291) ------------------------------

  ghost predicate HexGroups(groups: seq<string>) {
    forall i :: 0 <= i < |groups| ==> IsHexGroup(groups[i])
  }

  function HexValues(groups: seq<string>): (r: seq<nat>)
    ensures |r| == |groups| && forall i :: 0 <= i < |groups| ==> r[i] == Value(16, groups[i])
  {
    seq(|groups|, i requires 0 <= i < |groups| => Value(16, groups[i]))
  }

  /** `inner` writes out eight groups. */
  ghost predicate WritesInFull(inner: string, groups: seq<string>, words: seq<nat>) {
    |groups| == 8 && HexGroups(groups) && inner == Join(groups, ":") && words == HexValues(groups)
  }

  /** `inner` leaves out a run of zero groups between `head` and `tail`. */
  ghost predicate WritesShort(inner: string, head: seq<string>, tail: seq<string>, words: seq<nat>) {
    && HexGroups(head) && HexGroups(tail) && |head| + |tail| <= 8
    && inner == Join(head, ":") + "::" + Join(tail, ":")
    && words == HexValues(head) + Zeros(8 - |head| - |tail|) + HexValues(tail)
  }

  // ---- how the encoder reads a group -------------------------------------------------------------

  /** What stands between the colons of an accepted address. */
  predicate IsGroup(group: string) {
    IsHexGroup(group) || IsIpv4(group)
  }

  ghost predicate AreGroups(groups: seq<string>) {
    forall i :: 0 <= i < |groups| ==> IsGroup(groups[i])
  }

  /** Every group is read as one word: what stands in front of its first dot, in base 16. */
  function ReadGroup(group: string): nat {
    Value(16, Split(group, '.')[0])
  }

  function ReadGroups(groups: seq<string>): (r: seq<nat>)
    ensures |r| == |groups| && forall i :: 0 <= i < |groups| ==> r[i] == ReadGroup(groups[i])
  {
    seq(|groups|, i requires 0 <= i < |groups| => ReadGroup(groups[i]))
  }

  lemma QuadHasDot(value: string)
    requires IsIpv4(value)
    ensures '.' in value
  {
    SplitWithout(value, '.');
  }

  lemma QuadHasNoColon(quad: string)
    requires IsIpv4(quad)
    ensures ':' !in quad && quad != ""
  {
    var parts := Split(quad, '.');
    JoinOfSplit(quad, '.');
    forall i | 0 <= i < 4 ensures ':' !in parts[i] {
      assert IsOctet(parts[i]);
    }
    JoinWithout(parts);
    QuadHasDot(quad);
  }

  lemma {:induction false} JoinWithout(parts: seq<string>)
    requires Free(parts, ':')
    ensures ':' !in Join(parts, ".")
  {
    if |parts| > 1 {
      JoinWithout(parts[1..]);
    }
  }

  /** Of a dotted quad, base 16 reads the digits of the first octet. */
  lemma QuadRun(group: string)
    requires IsIpv4(group)
    ensures HexRun(group, 0) == |Split(group, '.')[0]| <= 3 && group[..HexRun(group, 0)] == Split(group, '.')[0]
    ensures ParseHex(group) == Some(Value(16, Split(group, '.')[0]))
  {
    var i := IndexFrom(group, '.', 0);
    QuadHasDot(group);
    var first := Split(group, '.')[0];
    assert IsOctet(first) && first == group[..i];
    assert forall j :: 0 <= j < i ==> group[j] == first[j] && IsHexDigit(group[j]);
  }

  lemma GroupIsParsed(group: string)
    requires IsGroup(group)
    ensures ParseHex(group) == Some(ReadGroup(group)) && ':' !in group && group != ""
    ensures IsHexGroup(group) ==> ReadGroup(group) == Value(16, group)
  {
    if IsIpv4(group) {
      QuadRun(group);
      QuadHasNoColon(group);
      QuadHasDot(group);
    } else {
      SplitWithout(group, '.');
      assert group[..|group|] == group;
    }
  }

  lemma WordsOfGroups(groups: seq<string>)
    requires AreGroups(groups)
    ensures Words(groups) == Somes(ReadGroups(groups)) && Free(groups, ':')
    ensures forall i :: 0 <= i < |groups| ==> groups[i] != ""
  {
    forall i | 0 <= i < |groups|
      ensures Words(groups)[i] == Somes(ReadGroups(groups))[i] && ':' !in groups[i] && groups[i] != ""
    {
      GroupIsParsed(groups[i]);
    }
  }

  lemma ReadOfHex(groups: seq<string>)
    requires HexGroups(groups)
    ensures AreGroups(groups) && ReadGroups(groups) == HexValues(groups)
  {
    forall i | 0 <= i < |groups| ensures IsGroup(groups[i]) && ReadGroups(groups)[i] == HexValues(groups)[i] {
      GroupIsParsed(groups[i]);
    }
  }

  lemma SomesValues(words: seq<nat>)
    ensures Values(Somes(words)) == words
  {
  }

  lemma SomesConcat(a: seq<nat>, b: seq<nat>)
    ensures Somes(a + b) == Somes(a) + Somes(b)
  {
  }

  /** Joined groups have no colon at either end and no two in a row. */
  ghost predicate SingleColons(s: string) {
    && (s != "" ==> s[0] != ':' && s[|s| - 1] != ':')
    && forall i :: 0 <= i < |s| - 1 ==> !(s[i] == ':' && s[i + 1] == ':')
  }

  lemma {:induction false} JoinHasSingleColons(groups: seq<string>)
    requires Free(groups, ':') && forall i :: 0 <= i < |groups| ==> groups[i] != ""
    ensures SingleColons(Join(groups, ":")) && (groups != [] ==> Join(groups, ":") != "")
  {
    if |groups| > 1 {
      JoinHasSingleColons(groups[1..]);
    }
  }

  lemma GroupsOfJoin(groups: seq<string>)
    requires Free(groups, ':') && forall i :: 0 <= i < |groups| ==> groups[i] != ""
    ensures Groups(Join(groups, ":")) == groups
  {
    JoinHasSingleColons(groups);
    if groups != [] {
      SplitOfJoin(groups, ':');
    }
  }

  lemma NoDouble(s: string)
    requires SingleColons(s)
    ensures SplitDouble(s) == [s]
  {
    assert DoubleFrom(s, 0) == |s|;
  }

  lemma DoubleIs(s: string, i: nat)
    requires i + 1 < |s| && s[i] == ':' && s[i + 1] == ':'
    requires forall j :: 0 <= j < i ==> !(s[j] == ':' && s[j + 1] == ':')
    ensures DoubleFrom(s, 0) == i
  {
  }

  lemma NoneBefore(a: string, rest: string)
    requires SingleColons(a)
    ensures forall j :: 0 <= j < |a| && j + 1 < |a + rest| ==> !((a + rest)[j] == ':' && (a + rest)[j + 1] == ':')
  {
  }

  lemma Around(a: string, b: string)
    ensures var s := a + "::" + b;
            && s == a + ("::" + b) && s[..|a|] == a && s[|a| + 2..] == b && s[|a|] == ':' && s[|a| + 1] == ':'
  {
  }

  lemma SplitHere(s: string, i: nat)
    requires DoubleFrom(s, 0) == i < |s|
    ensures SplitDouble(s) == [s[..i]] + SplitDouble(s[i + 2..])
  {
  }

  lemma DoubleBetween(a: string, b: string)
    requires SingleColons(a) && SingleColons(b)
    ensures SplitDouble(a + "::" + b) == [a, b]
  {
    Around(a, b);
    NoneBefore(a, "::" + b);
    DoubleIs(a + "::" + b, |a|);
    SplitHere(a + "::" + b, |a|);
    NoDouble(b);
  }

  lemma InnerOfFull(groups: seq<string>)
    requires AreGroups(groups)
    ensures InnerWords(Join(groups, ":")) == Somes(ReadGroups(groups))
  {
    WordsOfGroups(groups);
    JoinHasSingleColons(groups);
    NoDouble(Join(groups, ":"));
    GroupsOfJoin(groups);
  }

  lemma InnerOfHalves(inner: string, a: string, b: string)
    requires SplitDouble(inner) == [a, b]
    ensures InnerWords(inner)
         == Words(Groups(a)) + Somes(Zeros(8 - |Groups(a)| - |Groups(b)|)) + Words(Groups(b))
  {
  }

  lemma ThreeSomes(a: seq<nat>, b: seq<nat>, c: seq<nat>)
    ensures Somes(a) + Somes(b) + Somes(c) == Somes(a + b + c)
  {
    SomesConcat(a, b);
    SomesConcat(a + b, c);
  }

  /** An address between brackets that leaves out groups between `head` and `tail`. */
  function Shortened(head: seq<string>, tail: seq<string>): string {
    Join(head, ":") + "::" + Join(tail, ":")
  }

  function ReadShortened(head: seq<string>, tail: seq<string>): (words: seq<nat>)
    ensures |head| + |tail| <= 8 <==> |words| == 8
  {
    ReadGroups(head) + Zeros(8 - |head| - |tail|) + ReadGroups(tail)
  }

  lemma HalvesOfShort(head: seq<string>, tail: seq<string>)
    requires AreGroups(head) && AreGroups(tail)
    ensures SplitDouble(Shortened(head, tail)) == [Join(head, ":"), Join(tail, ":")]
    ensures Groups(Join(head, ":")) == head && Groups(Join(tail, ":")) == tail
  {
    WordsOfGroups(head);
    WordsOfGroups(tail);
    JoinHasSingleColons(head);
    JoinHasSingleColons(tail);
    DoubleBetween(Join(head, ":"), Join(tail, ":"));
    GroupsOfJoin(head);
    GroupsOfJoin(tail);
  }

  lemma ShortIsSome(head: seq<string>, tail: seq<string>)
    requires AreGroups(head) && AreGroups(tail)
    ensures Words(head) + Somes(Zeros(8 - |head| - |tail|)) + Words(tail) == Somes(ReadShortened(head, tail))
  {
    WordsOfGroups(head);
    WordsOfGroups(tail);
    ThreeSomes(ReadGroups(head), Zeros(8 - |head| - |tail|), ReadGroups(tail));
  }

  lemma InnerOfGroups(inner: string, a: string, b: string, head: seq<string>, tail: seq<string>)
    requires SplitDouble(inner) == [a, b] && Groups(a) == head && Groups(b) == tail
    ensures InnerWords(inner) == Words(head) + Somes(Zeros(8 - |head| - |tail|)) + Words(tail)
  {
    InnerOfHalves(inner, a, b);
  }

  lemma InnerOfShort(head: seq<string>, tail: seq<string>)
    requires AreGroups(head) && AreGroups(tail)
    ensures InnerWords(Shortened(head, tail)) == Somes(ReadShortened(head, tail))
  {
    HalvesOfShort(head, tail);
    InnerOfGroups(Shortened(head, tail), Join(head, ":"), Join(tail, ":"), head, tail);
    ShortIsSome(head, tail);
  }

  lemma EncodedWords(inner: string, words: seq<nat>)
    requires InnerWords(inner) == Somes(words)
    ensures IsBracketed("[" + inner + "]")
    ensures EncodeIpv6("[" + inner + "]") == if |words| == 8 then Some(words) else None
  {
    var host := "[" + inner + "]";
    assert host[1..|host| - 1] == inner;
    SomesValues(words);
  }

  /** Hex groups and dotted quads, wherever they stand: each becomes one word, eight are needed. */
  lemma EveryGroupIsOneWord(head: seq<string>, tail: seq<string>)
    requires AreGroups(head) && AreGroups(tail)
    ensures EncodeIpv6("[" + Join(head, ":") + "]") == if |head| == 8 then Some(ReadGroups(head)) else None
    ensures EncodeIpv6("[" + Shortened(head, tail) + "]")
         == if |head| + |tail| <= 8 then Some(ReadShortened(head, tail)) else None
  {
    InnerOfFull(head);
    EncodedWords(Join(head, ":"), ReadGroups(head));
    InnerOfShort(head, tail);
    EncodedWords(Shortened(head, tail), ReadShortened(head, tail));
  }

  /** Every hex-only text of an address, full or shortened, is encoded as its eight words. */
  lemma TextIsEncoded(inner: string, head: seq<string>, tail: seq<string>, words: seq<nat>)
    requires WritesInFull(inner, head, words) || WritesShort(inner, head, tail, words)
    ensures EncodeIpv6("[" + inner + "]") == Some(words)
  {
    ReadOfHex(head);
    if WritesInFull(inner, head, words) {
      EveryGroupIsOneWord(head, []);
    } else {
      ReadOfHex(tail);
      EveryGroupIsOneWord(head, tail);
    }
  }

  /** The groups of a half are hex groups, when they are numbers and no dotted quad is among them. */
  lemma HalfIsHex(half: string, words: seq<Option<nat>>)
    requires words == Words(Groups(half)) && forall i :: 0 <= i < |words| ==> words[i].Some?
    requires ShortGroups(Split(half, ':'))
    ensures HexGroups(Groups(half)) && Join(Groups(half), ":") == half && words == Somes(HexValues(Groups(half)))
  {
    var groups := Groups(half);
    JoinOfSplit(half, ':');
    forall i | 0 <= i < |groups| ensures IsHexGroup(groups[i]) {
      assert words[i] == ParseHex(groups[i]);
      assert ShortHex(groups[i]);
    }
    ReadOfHex(groups);
    WordsOfGroups(groups);
  }

  predicate ShortHex(group: string) {
    group == "" || IsHexGroup(group)
  }

  ghost predicate ShortGroups(groups: seq<string>) {
    forall i :: 0 <= i < |groups| ==> ShortHex(groups[i])
  }

  lemma SplitAround(a: string, b: string)
    ensures Split(a + "::" + b, ':') == Split(a, ':') + [""] + Split(b, ':')
  {
    assert a + "::" + b == a + [':'] + ("" + [':'] + b);
    SplitConcat(a, "" + [':'] + b, ':');
    SplitOff("", b, ':');
  }

  lemma CutAtDouble(inner: string)
    requires |SplitDouble(inner)| == 2
    ensures inner == SplitDouble(inner)[0] + "::" + SplitDouble(inner)[1]
  {
    var i := DoubleFrom(inner, 0);
    assert inner == inner[..i] + "::" + inner[i + 2..];
    assert SplitDouble(inner[i + 2..]) == [inner[i + 2..]];
  }

  lemma SplitAtDouble(inner: string)
    requires |SplitDouble(inner)| == 2
    ensures inner == SplitDouble(inner)[0] + "::" + SplitDouble(inner)[1]
    ensures Split(inner, ':') == Split(SplitDouble(inner)[0], ':') + [""] + Split(SplitDouble(inner)[1], ':')
  {
    CutAtDouble(inner);
    SplitAround(SplitDouble(inner)[0], SplitDouble(inner)[1]);
  }

  lemma SingleHalf(inner: string)
    requires |SplitDouble(inner)| == 1
    ensures SplitDouble(inner) == [inner]
  {
  }

  ghost predicate AllSome(words: seq<Option<nat>>) {
    forall i :: 0 <= i < |words| ==> words[i].Some?
  }

  lemma PartsAreSome(a: seq<Option<nat>>, b: seq<Option<nat>>, c: seq<Option<nat>>)
    requires AllSome(a + b + c)
    ensures AllSome(a) && AllSome(b) && AllSome(c)
  {
    forall i | 0 <= i < |a| ensures a[i].Some? {
      assert (a + b + c)[i] == a[i];
    }
    forall i | 0 <= i < |b| ensures b[i].Some? {
      assert (a + b + c)[|a| + i] == b[i];
    }
    forall i | 0 <= i < |c| ensures c[i].Some? {
      assert (a + b + c)[|a| + |b| + i] == c[i];
    }
  }

  /** The groups between the brackets, when no dotted quad is among them. */
  ghost predicate HexOnly(inner: string) {
    |SplitDouble(inner)| <= 2 && ShortGroups(Split(inner, ':'))
  }

  lemma BracketedIsHexOnly(host: string)
    requires IsBracketedIpv6(host) && '.' !in host
    ensures HexOnly(host[1..|host| - 1])
  {
    var inner := host[1..|host| - 1];
    var groups := Split(inner, ':');
    JoinOfSplit(inner, ':');
    forall i | 0 <= i < |groups| ensures ShortHex(groups[i]) {
      if IsIpv4(groups[i]) {
        QuadHasDot(groups[i]);
        GroupInside(groups, i, '.');
      }
    }
  }

  lemma {:induction false} GroupInside(groups: seq<string>, i: nat, c: char)
    requires i < |groups|
    ensures c in groups[i] ==> c in Join(groups, ":")
  {
    if |groups| > 1 && i > 0 {
      GroupInside(groups[1..], i - 1, c);
    }
  }

  /** The other way round: what is encoded is the text's own eight words. */
  lemma EncodedIsText(inner: string, words: seq<nat>) returns (head: seq<string>, tail: seq<string>)
    requires HexOnly(inner) && EncodeIpv6("[" + inner + "]") == Some(words)
    ensures WritesInFull(inner, head, words) || WritesShort(inner, head, tail, words)
  {
    var host := "[" + inner + "]";
    assert host[1..|host| - 1] == inner;
    var halves := SplitDouble(inner);
    var all := InnerWords(inner);
    SomesOfValues(all);
    if |halves| == 1 {
      SingleHalf(inner);
      head, tail := Groups(inner), [];
      HalfIsHex(inner, all);
      SomesInjective(words, HexValues(head));
    } else {
      SplitAtDouble(inner);
      head, tail := ShortText(inner, words);
    }
  }

  lemma HalvesAreHex(inner: string)
    requires |SplitDouble(inner)| == 2 && HexOnly(inner)
    ensures forall h :: 0 <= h < 2 ==> ShortGroups(Split(SplitDouble(inner)[h], ':'))
  {
    var a, b := SplitDouble(inner)[0], SplitDouble(inner)[1];
    SplitAtDouble(inner);
    forall i | 0 <= i < |Split(a, ':')| ensures ShortHex(Split(a, ':')[i]) {
      assert Split(inner, ':')[i] == Split(a, ':')[i];
    }
    forall i | 0 <= i < |Split(b, ':')| ensures ShortHex(Split(b, ':')[i]) {
      assert Split(inner, ':')[|Split(a, ':')| + 1 + i] == Split(b, ':')[i];
    }
  }

  lemma ShortText(inner: string, words: seq<nat>) returns (head: seq<string>, tail: seq<string>)
    requires |SplitDouble(inner)| == 2 && HexOnly(inner) && InnerWords(inner) == Somes(words) && |words| == 8
    ensures WritesShort(inner, head, tail, words)
  {
    var a, b := SplitDouble(inner)[0], SplitDouble(inner)[1];
    assert SplitDouble(inner) == [a, b];
    SplitAtDouble(inner);
    InnerOfHalves(inner, a, b);
    HalvesAreHex(inner);
    head, tail := Groups(a), Groups(b);
    ShortWords(a, b, words);
  }

  lemma ShortWords(a: string, b: string, words: seq<nat>)
    requires ShortGroups(Split(a, ':')) && ShortGroups(Split(b, ':')) && |words| == 8
    requires Words(Groups(a)) + Somes(Zeros(8 - |Groups(a)| - |Groups(b)|)) + Words(Groups(b)) == Somes(words)
    ensures WritesShort(a + "::" + b, Groups(a), Groups(b), words)
  {
    var zeros := Zeros(8 - |Groups(a)| - |Groups(b)|);
    PartsAreSome(Words(Groups(a)), Somes(zeros), Words(Groups(b)));
    HalfIsHex(a, Words(Groups(a)));
    HalfIsHex(b, Words(Groups(b)));
    ThreeSomes(HexValues(Groups(a)), zeros, HexValues(Groups(b)));
    SomesInjective(words, HexValues(Groups(a)) + zeros + HexValues(Groups(b)));
  }

  lemma SomesInjective(a: seq<nat>, b: seq<nat>)
    requires Somes(a) == Somes(b)
    ensures a == b
  {
    SomesValues(a);
    SomesValues(b);
  }

  lemma SomesOfValues(words: seq<Option<nat>>)
    requires AllSome(words)
    ensures Somes(Values(words)) == words
  {
  }

  // ---- the whole field -------------------------------------------------------------------------

  /** What the platform accepts as IPv4: four canonical octets. */
  predicate IsStrictIpv4(host: string) {
    var parts := Split(host, '.');
    |parts| == 4 && forall i :: 0 <= i < 4 ==> IsCanonical(parts[i]) && Value(10, parts[i]) <= 255
  }

  function Octets(parts: seq<string>): (r: seq<Byte>)
    ensures |r| == |parts| && forall i :: 0 <= i < |parts| ==> r[i] == Value(10, parts[i]) % 256
  {
    seq(|parts|, i requires 0 <= i < |parts| => Value(10, parts[i]) % 256)
  }

  /** Two bytes, the high one first. */
  function Word16(n: nat): (bytes: seq<Byte>)
    ensures |bytes| == 2
  {
    [n / 256 % 256, n % 256]
  }

  function WordBytes(words: seq<nat>): (bytes: seq<Byte>)
    ensures |bytes| == 2 * |words|
    ensures forall k :: 0 <= k < |bytes| ==> bytes[k] == Word16(words[k / 2])[k % 2]
  {
    seq(2 * |words|, k requires 0 <= k < 2 * |words| => Word16(words[k / 2])[k % 2])
  }

  function EncodeTarget(host: string, port: int): Result<seq<Byte>, Error> {
    match ParseProxyHost(host)
    case Err(e) => Err(e)
    case Ok(h) =>
      match ParseProxyPort(port)
      case Err(e) => Err(e)
      case Ok(p) => EncodeParsed(h, p)
  }

  function EncodeParsed(h: string, p: nat): Result<seq<Byte>, Error> {
    if IsStrictIpv4(h) then Ok([ATYP_IPV4] + Octets(Split(h, '.')) + Word16(p))
    else if IsBracketed(h) then
      match EncodeIpv6(h)
      case None => Err(InvalidProxyConfig)
      case Some(words) => Ok([ATYP_IPV6] + WordBytes(words) + Word16(p))
    else
      var domain := Encode(h);
      if |domain| > MAX_FIELD_BYTES then Err(InvalidProxyConfig)
      else Ok([ATYP_DOMAIN, |domain|] + domain + Word16(p))
  }

  /** The buffer fill of the IPv6 encoder. */
  method FillWords(words: seq<nat>) returns (bytes: seq<Byte>)
    requires |words| == 8
    ensures bytes == WordBytes(words)
  {
    var buffer := new Byte[16];
    for index := 0 to 8
      invariant forall k :: 0 <= k < 2 * index ==> buffer[k] == Word16(words[k / 2])[k % 2]
    {
      var at := 2 * index;
      assert at / 2 == index && (at + 1) / 2 == index && at % 2 == 0 && (at + 1) % 2 == 1;
      buffer[at] := words[index] / 256 % 256;
      buffer[at + 1] := words[index] % 256;
    }
    bytes := buffer[..];
  }

  // ---- the proxy's side --------------------------------------------------------------------------

  datatype Address = V4(octets: seq<Byte>) | Name(bytes: seq<Byte>) | V6(words: seq<nat>)

  datatype Target = Target(address: Address, port: nat, rest: seq<Byte>)

  function Read16(bytes: seq<Byte>, i: nat): nat
    requires i + 1 < |bytes|
  {
    bytes[i] as int * 256 + bytes[i + 1] as int
  }

  function ReadWords(bytes: seq<Byte>): (words: seq<nat>)
    requires |bytes| % 2 == 0
    ensures |words| == |bytes| / 2 && forall i :: 0 <= i < |words| ==> words[i] == Read16(bytes, 2 * i)
  {
    seq(|bytes| / 2, i requires 0 <= i < |bytes| / 2 => Read16(bytes, 2 * i))
  }

  /** Address type, address, port: section 4 of RFC 1928. */
  function DecodeTarget(bytes: seq<Byte>): Option<Target> {
    if bytes == [] then None
    else if bytes[0] == ATYP_IPV4 then
      if |bytes| < 7 then None else Some(Target(V4(bytes[1..5]), Read16(bytes, 5), bytes[7..]))
    else if bytes[0] == ATYP_IPV6 then
      if |bytes| < 19 then None else Some(Target(V6(ReadWords(bytes[1..17])), Read16(bytes, 17), bytes[19..]))
    else if bytes[0] == ATYP_DOMAIN then
      if |bytes| < 2 || |bytes| < 4 + bytes[1] as int then None
      else
        var length := bytes[1] as int;
        Some(Target(Name(bytes[2..2 + length]), Read16(bytes, 2 + length), bytes[4 + length..]))
    else None
  }

  lemma Read16Word(n: nat, before: seq<Byte>, after: seq<Byte>)
    requires n < 65536
    ensures Read16(before + Word16(n) + after, |before|) == n
  {
    var all := before + Word16(n) + after;
    assert all[|before|] == Word16(n)[0] && all[|before| + 1] == Word16(n)[1];
  }

  lemma Word16Reads(n: nat)
    requires n < 65536
    ensures Word16(n)[0] as int * 256 + Word16(n)[1] as int == n
  {
  }

  lemma ReadWordAt(words: seq<nat>, i: nat)
    requires i < |words| && words[i] < 65536
    ensures Read16(WordBytes(words), 2 * i) == words[i]
  {
    var at := 2 * i;
    var bytes := WordBytes(words);
    assert at / 2 == i && (at + 1) / 2 == i && at % 2 == 0 && (at + 1) % 2 == 1;
    assert bytes[at] == Word16(words[i])[0] && bytes[at + 1] == Word16(words[i])[1];
    Word16Reads(words[i]);
  }

  lemma ReadWordBytes(words: seq<nat>)
    requires forall i :: 0 <= i < |words| ==> words[i] < 65536
    ensures ReadWords(WordBytes(words)) == words
  {
    forall i | 0 <= i < |words| ensures ReadWords(WordBytes(words))[i] == words[i] {
      ReadWordAt(words, i);
    }
  }

  lemma DecodesV4(octets: seq<Byte>, p: nat, rest: seq<Byte>)
    requires |octets| == 4 && p < 65536
    ensures DecodeTarget([ATYP_IPV4] + octets + Word16(p) + rest) == Some(Target(V4(octets), p, rest))
  {
    var bytes := [ATYP_IPV4] + octets + Word16(p) + rest;
    Read16Word(p, [ATYP_IPV4] + octets, rest);
    assert bytes[1..5] == octets && bytes[7..] == rest;
  }

  lemma DecodesV6Body(body: seq<Byte>, p: nat, rest: seq<Byte>)
    requires |body| == 16 && p < 65536
    ensures DecodeTarget([ATYP_IPV6] + body + Word16(p) + rest) == Some(Target(V6(ReadWords(body)), p, rest))
  {
    var bytes := [ATYP_IPV6] + body + Word16(p) + rest;
    Read16Word(p, [ATYP_IPV6] + body, rest);
    assert bytes[1..17] == body && bytes[19..] == rest;
  }

  lemma DecodesV6(words: seq<nat>, p: nat, rest: seq<Byte>)
    requires |words| == 8 && p < 65536 && forall i :: 0 <= i < |words| ==> words[i] < 65536
    ensures DecodeTarget([ATYP_IPV6] + WordBytes(words) + Word16(p) + rest) == Some(Target(V6(words), p, rest))
  {
    DecodesV6Body(WordBytes(words), p, rest);
    ReadWordBytes(words);
  }

  lemma DecodesName(domain: seq<Byte>, p: nat, rest: seq<Byte>)
    requires |domain| <= MAX_FIELD_BYTES && p < 65536
    ensures DecodeTarget([ATYP_DOMAIN, |domain|] + domain + Word16(p) + rest) == Some(Target(Name(domain), p, rest))
  {
    var head: seq<Byte> := [ATYP_DOMAIN, |domain|];
    var bytes := head + domain + Word16(p) + rest;
    Read16Word(p, head + domain, rest);
    assert bytes[1] == |domain|;
    assert bytes[2..2 + |domain|] == domain && bytes[4 + |domain|..] == rest;
  }

  // ---- nothing is out of range -------------------------------------------------------------------

  lemma {:induction false} EncodeAscii(text: string)
    requires forall i :: 0 <= i < |text| ==> text[i] as int < 0x80
    ensures |Encode(text)| == |text| && forall i :: 0 <= i < |text| ==> Encode(text)[i] == text[i] as int
  {
    if text != "" {
      EncodeAscii(text[1..]);
    }
  }

  /** A name is at most 253 ASCII characters, so the guard on the length byte never fires. */
  lemma DomainFits(host: string)
    requires ParseProxyHost(host).Ok?
    ensures var h := ParseProxyHost(host).value;
            && |Encode(h)| == |h| <= MAX_HOST_LENGTH < MAX_FIELD_BYTES
            && forall i :: 0 <= i < |h| ==> Encode(h)[i] == h[i] as int
  {
    AcceptedHostIsPlain(host);
    EncodeAscii(ParseProxyHost(host).value);
  }

  lemma HexValueBounded(group: string)
    requires |group| <= 4 && forall i :: 0 <= i < |group| ==> IsHexDigit(group[i])
    ensures Value(16, group) < 65536
  {
    ValueBounded(16, group);
    assert Power(16, 4) == 65536 && Power(16, 3) == 4096 && Power(16, 2) == 256 && Power(16, 1) == 16;
  }

  lemma GroupFits(group: string)
    requires group == "" || IsHexGroup(group) || IsIpv4(group)
    ensures ParseHex(group).Some? ==> ParseHex(group).value < 65536
  {
    var n := HexRun(group, 0);
    if IsIpv4(group) {
      QuadRun(group);
    }
    HexValueBounded(group[..n]);
  }

  lemma AllGroups(inner: string, half: string, i: nat)
    requires |SplitDouble(inner)| <= 2 && half in SplitDouble(inner) && i < |Split(half, ':')|
    ensures Split(half, ':')[i] in Split(inner, ':')
  {
    if |SplitDouble(inner)| == 1 {
      SingleHalf(inner);
    } else {
      SplitAtDouble(inner);
      InThree(Split(SplitDouble(inner)[0], ':'), [""], Split(SplitDouble(inner)[1], ':'), Split(half, ':')[i]);
    }
  }

  lemma InThree(a: seq<string>, b: seq<string>, c: seq<string>, x: string)
    requires x in a || x in c
    ensures x in a + b + c
  {
  }

  /** Every word of an accepted address fits in sixteen bits, so writing it never throws. */
  lemma WordsFit(host: string)
    requires IsBracketedIpv6(host) && EncodeIpv6(host).Some?
    ensures forall i :: 0 <= i < 8 ==> EncodeIpv6(host).value[i] < 65536
  {
    var inner := host[1..|host| - 1];
    var halves := SplitDouble(inner);
    HalfFits(host, halves[0]);
    if |halves| == 2 {
      HalfFits(host, halves[1]);
    }
  }

  ghost predicate Fit(words: seq<Option<nat>>) {
    forall i :: 0 <= i < |words| ==> words[i].Some? ==> words[i].value < 65536
  }

  lemma HalfFits(host: string, half: string)
    requires IsBracketedIpv6(host) && half in SplitDouble(host[1..|host| - 1])
    ensures Fit(Words(Groups(half)))
  {
    var inner := host[1..|host| - 1];
    forall i | 0 <= i < |Groups(half)| ensures Words(Groups(half))[i].Some? ==> Words(Groups(half))[i].value < 65536 {
      AllGroups(inner, half, i);
      GroupFits(Groups(half)[i]);
    }
  }

  // ---- round trip ----------------------------------------------------------------------------------

  /** The destination an accepted host and port stand for. */
  function AddressOf(h: string): Address {
    if IsStrictIpv4(h) then V4(Octets(Split(h, '.')))
    else if IsBracketed(h) then V6(EncodeIpv6(h).GetOr([]))
    else Name(Encode(h))
  }

  lemma QuadStart(h: string)
    ensures IsIpv4(h) ==> !IsBracketed(h)
  {
    if IsIpv4(h) {
      QuadRun(h);
      assert IsOctet(Split(h, '.')[0]);
    }
  }

  lemma BracketedIsIpv6(h: string)
    requires IsPlainHost(h) && IsBracketed(h)
    ensures IsBracketedIpv6(h)
  {
    QuadStart(h);
  }

  /**
   * Whatever is encoded, a proxy that reads it by section 4 of RFC 1928 recovers the destination
   * and the port, and leaves what follows untouched.
   */
  lemma TargetRoundTrip(host: string, port: int, rest: seq<Byte>)
    requires EncodeTarget(host, port).Ok?
    ensures DecodeTarget(EncodeTarget(host, port).value + rest)
         == Some(Target(AddressOf(ParseProxyHost(host).value), port, rest))
  {
    var h := ParseProxyHost(host).value;
    AcceptedHostIsPlain(host);
    if IsStrictIpv4(h) {
      DecodesV4(Octets(Split(h, '.')), port, rest);
    } else if IsBracketed(h) {
      BracketedIsIpv6(h);
      WordsFit(h);
      DecodesV6(EncodeIpv6(h).value, port, rest);
    } else {
      DecodesName(Encode(h), port, rest);
    }
  }

  lemma PartIsPrinted(part: string)
    requires IsCanonical(part) && Value(10, part) <= 255
    ensures Decimal(Value(10, part) % 256) == part
  {
    SmallByte(Value(10, part));
    DecimalOfValue(part);
  }

  lemma SmallByte(n: nat)
    requires n <= 255
    ensures n % 256 == n
  {
  }

  lemma PartsArePrinted(parts: seq<string>)
    requires forall i :: 0 <= i < |parts| ==> IsCanonical(parts[i]) && Value(10, parts[i]) <= 255
    ensures Decimals(Octets(parts)) == parts
  {
    forall i | 0 <= i < |parts| ensures Decimals(Octets(parts))[i] == parts[i] {
      PartIsPrinted(parts[i]);
    }
  }

  lemma StrictIsPrinted(h: string)
    requires IsStrictIpv4(h)
    ensures h == Join(Decimals(Octets(Split(h, '.'))), ".")
  {
    PartsArePrinted(Split(h, '.'));
    JoinOfSplit(h, '.');
  }

  lemma OctetsOfParts(parts: seq<string>, octets: seq<Byte>)
    requires |parts| == |octets| && forall i :: 0 <= i < |parts| ==> Value(10, parts[i]) == octets[i]
    ensures Octets(parts) == octets
  {
  }

  lemma PrintedIsStrict(octets: seq<Byte>)
    requires |octets| == 4
    ensures var h := Join(Decimals(octets), ".");
            IsStrictIpv4(h) && Octets(Split(h, '.')) == octets
  {
    var parts := Decimals(octets);
    forall i | 0 <= i < 4
      ensures '.' !in parts[i] && IsCanonical(parts[i]) && Value(10, parts[i]) == octets[i]
    {
      DecimalIsDotless(octets[i]);
      ValueOfDecimal(octets[i]);
    }
    SplitOfJoin(parts, '.');
    OctetsOfParts(parts, octets);
  }

  /** A host goes out as IPv4 exactly when it is the canonical dotted quad of the octets sent. */
  lemma SentAsQuad(h: string, octets: seq<Byte>)
    requires |octets| == 4
    ensures IsStrictIpv4(h) && Octets(Split(h, '.')) == octets <==> h == Join(Decimals(octets), ".")
  {
    PrintedIsStrict(octets);
    if IsStrictIpv4(h) {
      StrictIsPrinted(h);
    }
  }

  /** The only ways to refuse a target; the guard on the domain length is not one of them. */
  lemma RefusedExactlyWhen(host: string, port: int)
    ensures EncodeTarget(host, port).Err?
       <==> (|| ParseProxyHost(host).Err? || !(1 <= port <= 65535)
             || (&& IsBracketed(ParseProxyHost(host).value) && !IsStrictIpv4(ParseProxyHost(host).value)
                 && EncodeIpv6(ParseProxyHost(host).value).None?))
  {
    if ParseProxyHost(host).Ok? {
      DomainFits(host);
    }
  }

  // ---- where text and encoding part ----------------------------------------------------------------

  /** The two words a dotted quad stands for (section 2.2 of RFC 4291, form 3). */
  function QuadWords(quad: string): seq<nat>
    requires IsIpv4(quad)
  {
    var o := Octets(Split(quad, '.'));
    [Read16(o, 0), Read16(o, 2)]
  }

  /** What `head`, a run of zero groups, `tail` and a quad at the end mean: the quad is two of the eight words. */
  function MeansWithQuad(head: seq<string>, tail: seq<string>, quad: string): seq<nat>
    requires IsIpv4(quad)
  {
    HexValues(head) + Zeros(6 - |head| - |tail|) + HexValues(tail) + QuadWords(quad)
  }

  /** What goes out for them: the quad is one word, and one zero word more than is meant stands in front of `tail`. */
  function SentWithQuad(head: seq<string>, tail: seq<string>, quad: string): seq<nat> {
    HexValues(head) + Zeros(7 - |head| - |tail|) + HexValues(tail) + [ReadGroup(quad)]
  }

  lemma GroupChars(group: string)
    requires IsGroup(group)
    ensures forall i :: 0 <= i < |group| ==> IsIpv6Char(group[i])
  {
    if IsIpv4(group) {
      var parts := Split(group, '.');
      JoinOfSplit(group, '.');
      forall i | 0 <= i < |parts| ensures AllIpv6Chars(parts[i]) {
        assert IsOctet(parts[i]);
      }
      JoinIpv6Chars(parts, ".");
    }
  }

  ghost predicate AllIpv6Chars(s: string) {
    forall i :: 0 <= i < |s| ==> IsIpv6Char(s[i])
  }

  lemma {:induction false} JoinIpv6Chars(parts: seq<string>, separator: string)
    requires AllIpv6Chars(separator) && forall i :: 0 <= i < |parts| ==> AllIpv6Chars(parts[i])
    ensures AllIpv6Chars(Join(parts, separator))
  {
    if |parts| > 1 {
      JoinIpv6Chars(parts[1..], separator);
    }
  }

  /** The halves of an address, as the validator splits them. */
  lemma SplitOfGroups(groups: seq<string>)
    requires AreGroups(groups)
    ensures GroupsOrEmpty(Split(Join(groups, ":"), ':'))
    ensures AllIpv6Chars(Join(groups, ":")) && SingleColons(Join(groups, ":"))
  {
    WordsOfGroups(groups);
    JoinHasSingleColons(groups);
    if groups != [] {
      SplitOfJoin(groups, ':');
    }
    forall i | 0 <= i < |groups| ensures AllIpv6Chars(groups[i]) {
      GroupChars(groups[i]);
    }
    JoinIpv6Chars(groups, ":");
  }

  lemma BracketedStays(inner: string)
    requires IsBracketedIpv6("[" + inner + "]")
    ensures ParseProxyHost("[" + inner + "]") == Ok("[" + inner + "]")
  {
    var host := "[" + inner + "]";
    assert host[1..|host| - 1] == inner;
    BracketedIsHostChars(host);
    PlainIsTrimmed(host);
    var i :| 0 <= i < |inner| && inner[i] == ':';
    assert IsSuspicious(host[i + 1]);
  }

  ghost predicate GroupsOrEmpty(parts: seq<string>) {
    forall i :: 0 <= i < |parts| ==> parts[i] == "" || IsGroup(parts[i])
  }

  lemma AroundAreGroups(a: string, b: string)
    requires GroupsOrEmpty(Split(a, ':')) && GroupsOrEmpty(Split(b, ':'))
    requires AllIpv6Chars(a) && AllIpv6Chars(b) && SingleColons(a) && SingleColons(b)
    ensures GroupsOrEmpty(Split(a + "::" + b, ':')) && AllIpv6Chars(a + "::" + b)
    ensures |SplitDouble(a + "::" + b)| == 2
  {
    SplitAround(a, b);
    DoubleBetween(a, b);
  }

  /** Groups around a shortening are accepted as a host, unless the text is too long. */
  lemma ShortenedIsAccepted(head: seq<string>, tail: seq<string>)
    requires AreGroups(head) && AreGroups(tail) && |Shortened(head, tail)| <= 45
    ensures ParseProxyHost("[" + Shortened(head, tail) + "]") == Ok("[" + Shortened(head, tail) + "]")
  {
    SplitOfGroups(head);
    SplitOfGroups(tail);
    AroundAreGroups(Join(head, ":"), Join(tail, ":"));
    assert Shortened(head, tail)[|Join(head, ":")|] == ':';
    BracketedGroups(Shortened(head, tail));
    BracketedStays(Shortened(head, tail));
  }

  lemma FullIsAccepted(groups: seq<string>)
    requires AreGroups(groups) && |groups| >= 2 && |Join(groups, ":")| <= 45
    ensures ParseProxyHost("[" + Join(groups, ":") + "]") == Ok("[" + Join(groups, ":") + "]")
  {
    var a := Join(groups, ":");
    SplitOfGroups(groups);
    NoDouble(a);
    assert IsGroup(groups[0]) && a[|groups[0]|] == ':';
    GroupIsParsed(groups[0]);
    BracketedGroups(a);
    BracketedStays(a);
  }

  lemma BracketedGroups(inner: string)
    requires 2 <= |inner| <= 45 && AllIpv6Chars(inner) && ':' in inner && |SplitDouble(inner)| <= 2
    requires GroupsOrEmpty(Split(inner, ':'))
    ensures IsBracketedIpv6("[" + inner + "]")
  {
    var host := "[" + inner + "]";
    assert host[1..|host| - 1] == inner;
  }

  lemma ReadWithQuad(groups: seq<string>, quad: string)
    requires HexGroups(groups) && IsIpv4(quad)
    ensures AreGroups(groups + [quad]) && ReadGroups(groups + [quad]) == HexValues(groups) + [ReadGroup(quad)]
  {
    ReadOfHex(groups);
    assert (groups + [quad])[..|groups|] == groups;
  }

  lemma SentIsRead(head: seq<string>, tail: seq<string>, quad: string)
    requires HexGroups(head) && ReadGroups(tail + [quad]) == HexValues(tail) + [ReadGroup(quad)]
    ensures AreGroups(head) && ReadShortened(head, tail + [quad]) == SentWithQuad(head, tail, quad)
  {
    ReadOfHex(head);
  }

  lemma DottedQuadIsOneWord(head: seq<string>, tail: seq<string>, quad: string)
    requires HexGroups(head) && HexGroups(tail) && |head| + |tail| <= 6 && IsIpv4(quad)
    ensures EncodeIpv6("[" + Shortened(head, tail + [quad]) + "]") == Some(SentWithQuad(head, tail, quad))
  {
    ReadWithQuad(tail, quad);
    SentIsRead(head, tail, quad);
    EveryGroupIsOneWord(head, tail + [quad]);
  }

  lemma BracketedIsNoQuad(h: string)
    requires IsBracketed(h)
    ensures !IsStrictIpv4(h)
  {
    var first := Split(h, '.')[0];
    assert first != "" ==> first[0] == h[0] && Digit(h[0]) == 36;
  }

  lemma BracketedTarget(host: string, words: Option<seq<nat>>, port: int)
    requires IsBracketed(host) && ParseProxyHost(host) == Ok(host) && EncodeIpv6(host) == words && 1 <= port <= 65535
    ensures EncodeTarget(host, port)
         == if words.Some? then Ok([ATYP_IPV6] + WordBytes(words.value) + Word16(port)) else Err(InvalidProxyConfig)
  {
    BracketedIsNoQuad(host);
  }

  /** Every such text that is not too long is accepted as a target and goes out like that. */
  lemma QuadIsSent(head: seq<string>, tail: seq<string>, quad: string, port: int)
    requires HexGroups(head) && HexGroups(tail) && |head| + |tail| <= 6 && IsIpv4(quad)
    requires |Shortened(head, tail + [quad])| <= 45 && 1 <= port <= 65535
    ensures EncodeTarget("[" + Shortened(head, tail + [quad]) + "]", port)
         == Ok([ATYP_IPV6] + WordBytes(SentWithQuad(head, tail, quad)) + Word16(port))
  {
    var host, sent := "[" + Shortened(head, tail + [quad]) + "]", SentWithQuad(head, tail, quad);
    ReadOfHex(head);
    ReadWithQuad(tail, quad);
    ShortenedIsAccepted(head, tail + [quad]);
    DottedQuadIsOneWord(head, tail, quad);
    BracketedTarget(host, Some(sent), port);
  }

  /**
   * So what goes out is what is meant exactly when every group behind the shortening and every
   * octet of the quad is zero.
   */
  lemma DottedQuadIsMisread(head: seq<string>, tail: seq<string>, quad: string)
    requires HexGroups(head) && HexGroups(tail) && |head| + |tail| <= 6 && IsIpv4(quad)
    ensures SentWithQuad(head, tail, quad) == MeansWithQuad(head, tail, quad)
       <==> && (forall i :: 0 <= i < |tail| ==> Value(16, tail[i]) == 0)
            && Octets(Split(quad, '.')) == [0, 0, 0, 0]
  {
    var front, words := HexValues(head) + Zeros(6 - |head| - |tail|), HexValues(tail);
    MoreZeros(6 - |head| - |tail|);
    assert SentWithQuad(head, tail, quad) == front + ([0] + words + [ReadGroup(quad)]);
    assert MeansWithQuad(head, tail, quad) == front + (words + QuadWords(quad));
    SameFront(front, [0] + words + [ReadGroup(quad)], words + QuadWords(quad));
    ShiftedIsZero([0] + words + [ReadGroup(quad)], words + QuadWords(quad), words, ReadGroup(quad), QuadWords(quad));
    QuadIsZero(quad);
  }

  lemma MoreZeros(n: nat)
    ensures Zeros(n + 1) == Zeros(n) + [0]
  {
  }

  lemma SameFront(front: seq<nat>, a: seq<nat>, b: seq<nat>)
    ensures front + a == front + b <==> a == b
  {
    assert (front + a)[|front|..] == a && (front + b)[|front|..] == b;
  }

  /** The same words one place further on, behind a zero, are zero throughout. */
  lemma ShiftedIsZero(sent: seq<nat>, meant: seq<nat>, words: seq<nat>, last: nat, quad: seq<nat>)
    requires |quad| == 2 && sent == [0] + words + [last] && meant == words + quad
    ensures sent == meant <==> (forall i :: 0 <= i < |words| ==> words[i] == 0) && quad == [0, last]
  {
    var n := |words|;
    if sent == meant {
      forall i | 0 <= i < n ensures words[i] == sent[i] {
        assert words[i] == meant[i];
      }
      AllAsFirst(sent, n);
      assert quad[0] == meant[n] && quad[1] == meant[n + 1];
    }
  }

  /** A sequence in which each element is followed by its like. */
  lemma {:induction false} AllAsFirst(words: seq<nat>, n: nat)
    requires n < |words| && forall i {:trigger words[i]} :: 0 <= i < n ==> words[i + 1] == words[i]
    ensures forall i :: 0 <= i <= n ==> words[i] == words[0]
  {
    if n > 0 {
      AllAsFirst(words, n - 1);
      assert words[n - 1 + 1] == words[n - 1];
    }
  }

  lemma QuadIsZero(quad: string)
    requires IsIpv4(quad)
    ensures QuadWords(quad) == [0, ReadGroup(quad)]
       <==> Octets(Split(quad, '.')) == [0, 0, 0, 0]
  {
    var parts := Split(quad, '.');
    assert IsOctet(parts[0]);
    ZeroInAnyRadix(parts[0]);
  }

  /**
   * Written in full, an address that ends in a quad has six groups in front of it. Those are
   * refused; seven groups, which mean nothing, are sent.
   */
  lemma QuadInFull(groups: seq<string>, quad: string)
    requires HexGroups(groups) && IsIpv4(quad)
    ensures EncodeIpv6("[" + Join(groups + [quad], ":") + "]")
         == if |groups| == 7 then Some(HexValues(groups) + [ReadGroup(quad)]) else None
  {
    ReadWithQuad(groups, quad);
    EveryGroupIsOneWord(groups + [quad], []);
  }

  lemma QuadInFullIsRefused(groups: seq<string>, quad: string, port: int)
    requires HexGroups(groups) && groups != [] && IsIpv4(quad)
    requires |Join(groups + [quad], ":")| <= 45 && 1 <= port <= 65535
    ensures EncodeTarget("[" + Join(groups + [quad], ":") + "]", port)
         == if |groups| == 7
            then Ok([ATYP_IPV6] + WordBytes(HexValues(groups) + [ReadGroup(quad)]) + Word16(port))
            else Err(InvalidProxyConfig)
  {
    ReadWithQuad(groups, quad);
    FullIsAccepted(groups + [quad]);
    QuadInFull(groups, quad);
    var host := "[" + Join(groups + [quad], ":") + "]";
    BracketedTarget(host, EncodeIpv6(host), port);
  }

  lemma {:induction false} ZeroInAnyRadix(s: string)
    requires s == "" || IsNumeral(10, s)
    ensures Value(10, s) == 0 ==> Value(16, s) == 0
  {
    if s != "" {
      ZeroInAnyRadix(s[..|s| - 1]);
    }
  }

  /** Zeros in front of an octet are accepted, but the host then goes out as a name. */
  lemma LeadingZerosGoOutAsName(host: string, port: int)
    requires ParseProxyHost(host).Ok? && IsIpv4(ParseProxyHost(host).value) && 1 <= port <= 65535
    ensures EncodeTarget(host, port).Ok?
    ensures var h := ParseProxyHost(host).value;
            AddressOf(h).V4? <==> forall i :: 0 <= i < 4 ==> IsCanonical(Split(h, '.')[i])
    ensures var h := ParseProxyHost(host).value;
            !AddressOf(h).V4? ==> AddressOf(h) == Name(Encode(h))
  {
    var h := ParseProxyHost(host).value;
    QuadStart(h);
    DomainFits(host);
    forall i | 0 <= i < 4 ensures Value(10, Split(h, '.')[i]) <= 255 {
      assert IsOctet(Split(h, '.')[i]);
    }
    assert (forall i :: 0 <= i < 4 ==> IsCanonical(Split(h, '.')[i])) ==> IsStrictIpv4(h);
  }
}
