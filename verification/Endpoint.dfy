/** Which proxy hosts and ports are accepted, and in what form they go on. */
module Endpoint {
  import opened Prelude
  import opened Text
  import opened Numerals

  const MAX_HOST_LENGTH := 253

  predicate IsHexDigit(c: char) {
    'a' <= c <= 'f' || 'A' <= c <= 'F' || '0' <= c <= '9'
  }

  /** One to three digits of value at most 255; zeros in front are fine. */
  predicate IsOctet(part: string) {
    |part| <= 3 && IsNumeral(10, part) && Value(10, part) <= 255
  }

  predicate IsIpv4(value: string) {
    var parts := Split(value, '.');
    |parts| == 4 && forall i :: 0 <= i < 4 ==> IsOctet(parts[i])
  }

  predicate IsHexGroup(group: string) {
    1 <= |group| <= 4 && forall i :: 0 <= i < |group| ==> IsHexDigit(group[i])
  }

  /** The index of the first double colon at or after `from`, or the length when there is none. */
  function DoubleFrom(s: string, from: nat): (i: nat)
    requires from <= |s|
    ensures from <= i <= |s| && (i < |s| ==> i + 1 < |s| && s[i] == ':' && s[i + 1] == ':')
    ensures forall j :: from <= j < i && j + 1 < |s| ==> !(s[j] == ':' && s[j + 1] == ':')
    decreases |s| - from
  {
    if from == |s| || (from + 1 < |s| && s[from] == ':' && s[from + 1] == ':') then from else DoubleFrom(s, from + 1)
  }

  function SplitDouble(s: string): (parts: seq<string>)
    ensures parts != []
  {
    var i := DoubleFrom(s, 0);
    if i == |s| then [s] else [s[..i]] + SplitDouble(s[i + 2..])
  }

  predicate IsIpv6Char(c: char) {
    IsHexDigit(c) || c == ':' || c == '.'
  }

  predicate IsBracketed(value: string) {
    |value| >= 2 && value[0] == '[' && value[|value| - 1] == ']'
  }

  predicate IsBracketedIpv6(value: string) {
    && IsBracketed(value)
    && var inner := value[1..|value| - 1];
       && 2 <= |inner| <= 45 && (forall i :: 0 <= i < |inner| ==> IsIpv6Char(inner[i])) && ':' in inner
       && |SplitDouble(inner)| <= 2
       && var groups := Split(inner, ':');
          forall i :: 0 <= i < |groups| ==> groups[i] == "" || IsHexGroup(groups[i]) || IsIpv4(groups[i])
  }

  /** A DNS label: letters, digits and hyphens, no hyphen at either end. */
  predicate IsLabel(part: string) {
    && 1 <= |part| <= 63 && IsAlphanumeric(part[0]) && IsAlphanumeric(part[|part| - 1])
    && forall i :: 0 <= i < |part| ==> IsAlphanumeric(part[i]) || part[i] == '-'
  }

  predicate IsSuspicious(c: char) {
    IsSpace(c) || c in ['/', '\\', '@', '?', '#', '%', ':'] || c < ' ' || c == '\U{007F}'
  }

  datatype Error = InvalidProxyConfig

  function ParseProxyHost(host: string): Result<string, Error> {
    var trimmed := Trim(host);
    if trimmed == "" || |trimmed| > MAX_HOST_LENGTH then Err(InvalidProxyConfig)
    else if exists i :: 0 <= i < |trimmed| && IsSuspicious(trimmed[i]) then
      if IsBracketedIpv6(trimmed) then Ok(trimmed) else Err(InvalidProxyConfig)
    else if IsIpv4(trimmed) then Ok(trimmed)
    else
      var labels := Split(trimmed, '.');
      if exists i :: 0 <= i < |labels| && !IsLabel(labels[i]) then Err(InvalidProxyConfig)
      else Ok(ToLower(trimmed))
  }

  function ParseProxyPort(port: int): Result<nat, Error> {
    if port < 1 || port > 65535 then Err(InvalidProxyConfig) else Ok(port)
  }

  /** What an accepted host consists of. */
  predicate IsHostChar(c: char) {
    IsAlphanumeric(c) || c in ['-', '.', ':', '[', ']']
  }

  ghost predicate AllHostChars(s: string) {
    forall i :: 0 <= i < |s| ==> IsHostChar(s[i])
  }

  lemma {:induction false} JoinHostChars(parts: seq<string>, separator: string)
    requires AllHostChars(separator) && forall i :: 0 <= i < |parts| ==> AllHostChars(parts[i])
    ensures AllHostChars(Join(parts, separator))
  {
    if |parts| > 1 {
      JoinHostChars(parts[1..], separator);
    }
  }

  lemma OctetsAreHostChars(value: string)
    requires IsIpv4(value)
    ensures AllHostChars(value)
  {
    var parts := Split(value, '.');
    JoinOfSplit(value, '.');
    forall i | 0 <= i < |parts| ensures AllHostChars(parts[i]) {
      assert IsOctet(parts[i]);
    }
    JoinHostChars(parts, ".");
  }

  lemma LabelsAreHostChars(value: string)
    requires forall i :: 0 <= i < |Split(value, '.')| ==> IsLabel(Split(value, '.')[i])
    ensures AllHostChars(value) && value != "" && IsAlphanumeric(value[0])
  {
    var parts := Split(value, '.');
    JoinOfSplit(value, '.');
    forall i | 0 <= i < |parts| ensures AllHostChars(parts[i]) {
      assert IsLabel(parts[i]);
    }
    JoinHostChars(parts, ".");
    assert IsLabel(parts[0]) && parts[0] != "";
    assert value[0] == parts[0][0];
  }

  lemma BracketedIsHostChars(value: string)
    requires IsBracketedIpv6(value)
    ensures AllHostChars(value)
  {
    var inner := value[1..|value| - 1];
    forall i | 0 <= i < |value| ensures IsHostChar(value[i]) {
      if 0 < i < |value| - 1 {
        assert value[i] == inner[i - 1];
      }
    }
  }

  lemma LowerIsHostChars(value: string)
    requires AllHostChars(value) && value != "" && IsAlphanumeric(value[0])
    ensures AllHostChars(ToLower(value)) && IsAlphanumeric(ToLower(value)[0])
  {
    forall i | 0 <= i < |value| ensures IsHostChar(ToLower(value)[i]) {
      assert IsHostChar(value[i]);
    }
  }

  /** The form in which an accepted host goes on. */
  predicate IsPlainHost(h: string) {
    && 1 <= |h| <= MAX_HOST_LENGTH && (forall i :: 0 <= i < |h| ==> IsHostChar(h[i]))
    && (IsBracketedIpv6(h) || IsIpv4(h) || IsAlphanumeric(h[0]))
  }

  /**
   * An accepted host is short, and made of letters, digits, hyphens, dots, colons and brackets
   * only: nothing that could end a header line or a request line.
   */
  lemma AcceptedHostIsPlain(host: string)
    requires ParseProxyHost(host).Ok?
    ensures IsPlainHost(ParseProxyHost(host).value)
  {
    var trimmed := Trim(host);
    if exists i :: 0 <= i < |trimmed| && IsSuspicious(trimmed[i]) {
      BracketedIsHostChars(trimmed);
    } else if IsIpv4(trimmed) {
      OctetsAreHostChars(trimmed);
    } else {
      LabelsAreHostChars(trimmed);
      LowerIsHostChars(trimmed);
    }
  }

  lemma PlainIsTrimmed(h: string)
    requires h != "" && AllHostChars(h)
    ensures Trim(h) == h
  {
    assert IsHostChar(h[0]) && IsHostChar(h[|h| - 1]);
    assert TrimStart(h) == h;
  }

  lemma DigitsAreLower(part: string)
    requires IsNumeral(10, part)
    ensures ToLower(part) == part
  {
  }

  lemma NumeralsStay(part: string)
    ensures IsNumeral(10, ToLower(part)) ==> ToLower(part) == part
  {
    if IsNumeral(10, ToLower(part)) {
      forall i | 0 <= i < |part| ensures ToLower(part)[i] == part[i] {
        assert Digit(ToLower(part)[i]) < 10;
      }
    }
  }

  ghost predicate AreOctets(parts: seq<string>) {
    |parts| == 4 && forall i :: 0 <= i < 4 ==> IsOctet(parts[i])
  }

  lemma LowerOctets(parts: seq<string>)
    ensures AreOctets(LowerAll(parts)) <==> AreOctets(parts)
    ensures AreOctets(parts) ==> LowerAll(parts) == parts
  {
    if AreOctets(LowerAll(parts)) {
      forall i | 0 <= i < 4 ensures LowerAll(parts)[i] == parts[i] {
        assert IsOctet(LowerAll(parts)[i]);
        NumeralsStay(parts[i]);
      }
      assert LowerAll(parts) == parts;
    }
    if AreOctets(parts) {
      forall i | 0 <= i < 4 ensures LowerAll(parts)[i] == parts[i] {
        assert IsOctet(parts[i]);
        DigitsAreLower(parts[i]);
      }
      assert LowerAll(parts) == parts;
    }
  }

  lemma LowerQuad(value: string)
    ensures IsIpv4(ToLower(value)) <==> IsIpv4(value)
    ensures IsIpv4(value) ==> ToLower(value) == value
  {
    SplitLower(value);
    LowerOctets(Split(value, '.'));
    assert IsIpv4(value) <==> AreOctets(Split(value, '.'));
    assert IsIpv4(ToLower(value)) <==> AreOctets(Split(ToLower(value), '.'));
    JoinOfSplit(value, '.');
    JoinOfSplit(ToLower(value), '.');
  }

  lemma LowerLabel(part: string)
    ensures IsLabel(part) ==> IsLabel(ToLower(part))
  {
  }

  lemma NoneSuspicious(h: string)
    requires AllHostChars(h) && ':' !in h
    ensures forall i :: 0 <= i < |h| ==> !IsSuspicious(h[i])
  {
  }

  lemma NameStays(trimmed: string)
    requires 1 <= |trimmed| <= MAX_HOST_LENGTH && !IsIpv4(trimmed)
    requires forall i :: 0 <= i < |trimmed| ==> !IsSuspicious(trimmed[i])
    requires forall i :: 0 <= i < |Split(trimmed, '.')| ==> IsLabel(Split(trimmed, '.')[i])
    ensures ParseProxyHost(ToLower(trimmed)) == Ok(ToLower(trimmed))
  {
    var h := ToLower(trimmed);
    LabelsAreHostChars(trimmed);
    LowerIsHostChars(trimmed);
    PlainIsTrimmed(h);
    assert ':' !in h by {
      assert forall i :: 0 <= i < |trimmed| ==> trimmed[i] != ':';
    }
    NoneSuspicious(h);
    LowerQuad(trimmed);
    SplitLower(trimmed);
    forall i | 0 <= i < |Split(h, '.')| ensures IsLabel(Split(h, '.')[i]) {
      LowerLabel(Split(trimmed, '.')[i]);
    }
    LowerTwice(trimmed);
  }

  /** The form that goes on is canonical: validated again it stays as it is, and names are in lower case. */
  lemma AcceptedHostIsCanonical(host: string)
    requires ParseProxyHost(host).Ok?
    ensures var h := ParseProxyHost(host).value;
            ParseProxyHost(h) == Ok(h) && (!IsBracketed(h) ==> ToLower(h) == h)
  {
    var trimmed := Trim(host);
    if exists i :: 0 <= i < |trimmed| && IsSuspicious(trimmed[i]) {
      BracketedIsHostChars(trimmed);
      PlainIsTrimmed(trimmed);
    } else if IsIpv4(trimmed) {
      OctetsAreHostChars(trimmed);
      PlainIsTrimmed(trimmed);
      LowerQuad(trimmed);
    } else {
      NameStays(trimmed);
      LowerTwice(trimmed);
    }
  }
}
