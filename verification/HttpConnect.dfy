/** The HTTP `CONNECT` tunnel (section 9.3.6 of RFC 9110). */
module HttpConnect {
  import opened Prelude
  import opened Numerals
  import opened Utf8
  import opened Handshake
  import Bits
  import Endpoint
  import Text

  const MAX_HEADER_BYTES := 16 * 1024

  // ---- the response block ------------------------------------------------------------------------

  /** The first `n` bytes end in an empty line. */
  predicate EndsAt(s: seq<Byte>, n: nat)
    requires n <= |s|
  {
    n >= 4 && s[n - 4] == 13 && s[n - 3] == 10 && s[n - 2] == 13 && s[n - 1] == 10
  }

  /** The length of the shortest prefix, longer than `from`, that ends in an empty line. */
  function HeaderEnd(s: seq<Byte>, from: nat): (n: Option<nat>)
    requires from <= |s|
    ensures n.Some? ==> from < n.value <= |s| && EndsAt(s, n.value)
    ensures forall k :: from < k <= (if n.Some? then n.value - 1 else |s|) ==> !EndsAt(s, k)
    decreases |s| - from
  {
    if from == |s| then None else if EndsAt(s, from + 1) then Some(from + 1) else HeaderEnd(s, from + 1)
  }

  function MapStatus(status: nat): Option<ErrorCode> {
    if 200 <= status < 300 then None
    else if status == 401 || status == 407 then Some(AuthFailed)
    else if status == 403 then Some(Forbidden)
    else if status == 502 || status == 504 then Some(Unreachable)
    else Some(ProxyFailure)
  }

  predicate IsDigitByte(b: Byte) {
    48 <= b <= 57
  }

  /** The three digits of a status line, when the line has the form of one. */
  function StatusOf(line: seq<Byte>): Option<nat> {
    if && |line| >= 12 && line[..7] == [72, 84, 84, 80, 47, 49, 46] && line[7] in [48, 49] && line[8] == 32
       && IsDigitByte(line[9]) && IsDigitByte(line[10]) && IsDigitByte(line[11])
       && (|line| == 12 || line[12] == 32)
    then Some((line[9] as nat - 48) * 100 + (line[10] as nat - 48) * 10 + (line[11] as nat - 48))
    else None
  }

  /** The index of the first line break, or the length when there is none. */
  function LineEnd(s: seq<Byte>, from: nat): (i: nat)
    requires from <= |s|
    ensures from <= i <= |s| && (i < |s| ==> i + 1 < |s| && s[i] == 13 && s[i + 1] == 10)
    ensures forall j :: from <= j < i && j + 1 < |s| ==> !(s[j] == 13 && s[j + 1] == 10)
    decreases |s| - from
  {
    if from == |s| || (from + 1 < |s| && s[from] == 13 && s[from + 1] == 10) then from else LineEnd(s, from + 1)
  }

  /** What a complete block says; `None` is success. */
  function Judge(block: seq<Byte>): Option<ErrorCode> {
    match StatusOf(block[..LineEnd(block, 0)])
    case None => Some(ProtocolError)
    case Some(status) => MapStatus(status)
  }

  function Digits(status: nat): seq<Byte>
    requires status < 1000
  {
    [48 + status / 100, 48 + status / 10 % 10, 48 + status % 10]
  }

  /** A status line: HTTP/1.0 or 1.1, three digits, and a space with whatever follows it, or nothing. */
  function StatusLine(minor: Byte, status: nat, reason: Option<seq<Byte>>): seq<Byte>
    requires status < 1000
  {
    [72, 84, 84, 80, 47, 49, 46, minor, 32] + Digits(status)
    + match reason
      case None => []
      case Some(text) => [32] + text
  }

  lemma DigitsRead(status: nat)
    requires status < 1000
    ensures var d := Digits(status);
            IsDigitByte(d[0]) && IsDigitByte(d[1]) && IsDigitByte(d[2])
            && (d[0] as int - 48) * 100 + (d[1] as int - 48) * 10 + (d[2] as int - 48) == status
  {
    var tens := status / 10;
    assert status == tens * 10 + status % 10;
    Bits.Remainder(tens / 10, 100, tens % 10 * 10 + status % 10);
  }

  lemma StatusReads(minor: Byte, status: nat, reason: Option<seq<Byte>>)
    requires minor in {48, 49} && status < 1000
    ensures StatusOf(StatusLine(minor, status, reason)) == Some(status)
  {
    var line := StatusLine(minor, status, reason);
    DigitsRead(status);
    assert line[..7] == [72, 84, 84, 80, 47, 49, 46];
    assert line[9] == Digits(status)[0] && line[10] == Digits(status)[1] && line[11] == Digits(status)[2];
  }

  lemma DigitsAre(a: Byte, b: Byte, c: Byte)
    requires IsDigitByte(a) && IsDigitByte(b) && IsDigitByte(c)
    ensures var status: nat := (a as int - 48) * 100 + (b as int - 48) * 10 + (c as int - 48);
            status < 1000 && Digits(status) == [a, b, c]
  {
    var x, y, z := a as int - 48, b as int - 48, c as int - 48;
    Bits.Remainder(x, 100, y * 10 + z);
    Bits.Remainder(x * 10 + y, 10, z);
    Bits.Remainder(x, 10, y);
  }

  lemma FrontIs(line: seq<Byte>)
    requires |line| >= 12 && line[..7] == [72, 84, 84, 80, 47, 49, 46] && line[8] == 32
    ensures line[..12] == [72, 84, 84, 80, 47, 49, 46, line[7], 32] + [line[9], line[10], line[11]]
  {
    assert line[..12] == line[..7] + [line[7], line[8]] + [line[9], line[10], line[11]];
  }

  /** Nothing but such a line has a status. */
  lemma OnlyStatusLines(line: seq<Byte>) returns (minor: Byte, reason: Option<seq<Byte>>)
    requires StatusOf(line).Some?
    ensures minor in {48, 49} && StatusOf(line).value < 1000
    ensures line == StatusLine(minor, StatusOf(line).value, reason)
  {
    minor := line[7];
    reason := if |line| == 12 then None else Some(line[13..]);
    DigitsAre(line[9], line[10], line[11]);
    FrontIs(line);
    assert line == line[..12] + line[12..];
    assert |line| > 12 ==> line[12..] == [32] + line[13..];
  }

  /** What a complete block comes to, by its status; one without a status line breaks the protocol. */
  lemma StatusIsJudged(minor: Byte, status: nat, reason: Option<seq<Byte>>, rest: seq<Byte>)
    requires minor in {48, 49} && status < 1000
    requires var line := StatusLine(minor, status, reason); LineEnd(line + [13, 10] + rest, 0) == |line|
    ensures Judge(StatusLine(minor, status, reason) + [13, 10] + rest)
         == if status / 100 == 2 then None
            else if status in {401, 407} then Some(AuthFailed)
            else if status in {403} then Some(Forbidden)
            else if status in {502, 504} then Some(Unreachable)
            else Some(ProxyFailure)
  {
    var line := StatusLine(minor, status, reason);
    StatusReads(minor, status, reason);
    assert (line + [13, 10] + rest)[..|line|] == line;
  }

  datatype Verdict = Block(used: nat) | TooLarge(used: nat) | Starved(used: nat)

  /** How far the response is read: to the end of the block, or to the cap, or to the end of the stream. */
  function Read(s: seq<Byte>): (v: Verdict)
    ensures v.used <= |s|
  {
    match HeaderEnd(s, 0)
    case Some(n) => if n <= MAX_HEADER_BYTES + 1 then Block(n) else TooLarge(MAX_HEADER_BYTES + 1)
    case None => if |s| > MAX_HEADER_BYTES then TooLarge(MAX_HEADER_BYTES + 1) else Starved(|s|)
  }

  function Outcome(s: seq<Byte>, starved: ErrorCode): Result<(), ErrorCode> {
    match Read(s)
    case TooLarge(_) => Err(ProtocolError)
    case Starved(_) => Err(starved)
    case Block(n) =>
      match Judge(s[..n])
      case None => Ok(())
      case Some(code) => Err(code)
  }

  /** Success uses the shortest prefix that ends in an empty line, and that is within the cap. */
  lemma SuccessUsesTheBlock(s: seq<Byte>, starved: ErrorCode)
    requires Outcome(s, starved).Ok?
    ensures var n := Read(s).used;
            && n <= 16385 && EndsAt(s, n) && (forall k :: 0 < k < n ==> !EndsAt(s, k))
            && exists status :: 200 <= status < 300 && StatusOf(s[..n][..LineEnd(s[..n], 0)]) == Some(status)
  {
  }

  lemma {:induction false} EndIsFound(s: seq<Byte>, more: seq<Byte>, from: nat)
    requires from <= |s| && HeaderEnd(s, from).Some?
    ensures HeaderEnd(s + more, from) == HeaderEnd(s, from)
    decreases |s| - from
  {
    assert forall i :: 0 <= i < |s| ==> (s + more)[i] == s[i];
    if !EndsAt(s, from + 1) {
      EndIsFound(s, more, from + 1);
    }
  }

  /** The tunnel's payload, however it is coalesced with the response, changes no success. */
  lemma PayloadIsNotRead(s: seq<Byte>, payload: seq<Byte>, starved: ErrorCode)
    requires Outcome(s, starved).Ok?
    ensures Outcome(s + payload, starved).Ok? && Read(s + payload) == Read(s)
  {
    EndIsFound(s, payload, 0);
    assert (s + payload)[..Read(s).used] == s[..Read(s).used];
  }

  // ---- the request -------------------------------------------------------------------------------

  function Base64Char(n: nat): char
    requires n < 64
  {
    if n < 26 then ('A' as int + n) as char
    else if n < 52 then ('a' as int + n - 26) as char
    else if n < 62 then ('0' as int + n - 52) as char
    else if n == 62 then '+' else '/'
  }

  /** The four characters of three bytes. */
  function Base64Group(a: Byte, b: Byte, c: Byte): string {
    [Base64Char(a / 4), Base64Char(a % 4 * 16 + b / 16), Base64Char(b % 16 * 4 + c / 64), Base64Char(c % 64)]
  }

  /** The characters of what is left when no three bytes are: none, or four with padding. */
  function Base64Last(bytes: seq<Byte>): string
    requires |bytes| < 3
  {
    if bytes == [] then ""
    else if |bytes| == 1 then [Base64Char(bytes[0] / 4), Base64Char(bytes[0] % 4 * 16), '=', '=']
    else [Base64Char(bytes[0] / 4), Base64Char(bytes[0] % 4 * 16 + bytes[1] / 16), Base64Char(bytes[1] % 16 * 4), '=']
  }

  function Base64(bytes: seq<Byte>): string
    decreases |bytes|
  {
    if |bytes| < 3 then Base64Last(bytes)
    else Base64Group(bytes[0], bytes[1], bytes[2]) + Base64(bytes[3..])
  }

  /** The value of a character of the alphabet (section 4 of RFC 4648); 64 for any other. */
  function Base64Value(c: char): nat {
    if 'A' <= c <= 'Z' then c as int - 'A' as int
    else if 'a' <= c <= 'z' then c as int - 'a' as int + 26
    else if '0' <= c <= '9' then c as int - '0' as int + 52
    else if c == '+' then 62
    else if c == '/' then 63 else 64
  }

  function FourValues(text: string): (nat, nat, nat, nat)
    requires |text| >= 4
  {
    (Base64Value(text[0]), Base64Value(text[1]), Base64Value(text[2]), Base64Value(text[3]))
  }

  /** What Base64 text stands for: four characters for three bytes, padded at the end. */
  function FromBase64(text: string): Option<seq<nat>>
    decreases |text|
  {
    if text == "" then Some([])
    else if |text| < 4 then None
    else
      var (p, q, r, t) := FourValues(text);
      if text[2] == '=' then if text[3] == '=' && |text| == 4 then Some([p * 4 + q / 16]) else None
      else if text[3] == '=' then if |text| == 4 then Some([p * 4 + q / 16, q % 16 * 16 + r / 4]) else None
      else
        match FromBase64(text[4..])
        case None => None
        case Some(rest) => Some([p * 4 + q / 16, q % 16 * 16 + r / 4, r % 4 * 64 + t] + rest)
  }

  lemma CharHasValue(n: nat)
    requires n < 64
    ensures Base64Value(Base64Char(n)) == n && Base64Char(n) != '='
  {
  }

  /** The first three bytes, as four characters in front of the rest. */
  lemma GroupReads(w: nat, x: nat, y: nat, z: nat, text: string, rest: seq<nat>)
    requires w < 64 && x < 64 && y < 64 && z < 64 && FromBase64(text) == Some(rest)
    ensures FromBase64([Base64Char(w), Base64Char(x), Base64Char(y), Base64Char(z)] + text)
         == Some([w * 4 + x / 16, x % 16 * 16 + y / 4, y % 4 * 64 + z] + rest)
  {
    CharHasValue(w);
    CharHasValue(x);
    CharHasValue(y);
    CharHasValue(z);
    assert ([Base64Char(w), Base64Char(x), Base64Char(y), Base64Char(z)] + text)[4..] == text;
  }

  lemma ThreeBytesRead(a: Byte, b: Byte, c: Byte, text: string, rest: seq<nat>)
    requires FromBase64(text) == Some(rest)
    ensures FromBase64(Base64Group(a, b, c) + text) == Some([a as nat, b as nat, c as nat] + rest)
  {
    SixBits(a, b, c);
    SixBitsFit(a, b, c);
    var w, x, y, z := a as nat / 4, a as nat % 4 * 16 + b as nat / 16, b as nat % 16 * 4 + c as nat / 64, c as nat % 64;
    GroupReads(w, x, y, z, text, rest);
  }

  lemma SixBitsFit(a: nat, b: nat, c: nat)
    requires a < 256 && b < 256 && c < 256
    ensures a / 4 < 64 && a % 4 * 16 + b / 16 < 64 && b % 16 * 4 + c / 64 < 64 && c % 64 < 64
  {
  }

  lemma PaddedReads(w: nat, x: nat, y: nat)
    requires w < 64 && x < 64 && y < 64
    ensures FromBase64([Base64Char(w), Base64Char(x), '=', '=']) == Some([w * 4 + x / 16])
    ensures FromBase64([Base64Char(w), Base64Char(x), Base64Char(y), '='])
         == Some([w * 4 + x / 16, x % 16 * 16 + y / 4])
  {
    CharHasValue(w);
    CharHasValue(x);
    CharHasValue(y);
  }

  lemma LastByteReads(a: Byte)
    ensures FromBase64([Base64Char(a / 4), Base64Char(a % 4 * 16), '=', '=']) == Some([a as nat])
  {
    SixBits(a, 0, 0);
    SixBitsFit(a, 0, 0);
    PaddedReads(a as nat / 4, a as nat % 4 * 16, 0);
  }

  lemma LastTwoBytesRead(a: Byte, b: Byte)
    ensures FromBase64([Base64Char(a / 4), Base64Char(a % 4 * 16 + b / 16), Base64Char(b % 16 * 4), '='])
         == Some([a as nat, b as nat])
  {
    SixBits(a, b, 0);
    SixBitsFit(a, b, 0);
    PaddedReads(a as nat / 4, a as nat % 4 * 16 + b as nat / 16, b as nat % 16 * 4);
  }

  lemma FirstThree(bytes: seq<Byte>)
    requires |bytes| >= 3
    ensures bytes == [bytes[0], bytes[1], bytes[2]] + bytes[3..]
  {
  }
  lemma ShortReadsBack(bytes: seq<Byte>)
    requires |bytes| < 3
    ensures FromBase64(Base64Last(bytes)) == Some(bytes)
  {
    if |bytes| == 1 {
      LastByteReads(bytes[0]);
      assert bytes == [bytes[0]];
    } else if |bytes| == 2 {
      LastTwoBytesRead(bytes[0], bytes[1]);
      assert bytes == [bytes[0], bytes[1]];
    }
  }
  lemma {:induction false} Base64ReadsBack(bytes: seq<Byte>)
    ensures FromBase64(Base64(bytes)) == Some(bytes)
    decreases |bytes|
  {
    if |bytes| < 3 {
      ShortReadsBack(bytes);
    } else {
      Base64ReadsBack(bytes[3..]);
      FirstThree(bytes);
      ThreeBytesRead(bytes[0], bytes[1], bytes[2], Base64(bytes[3..]), bytes[3..]);
    }
  }

  lemma SixBits(a: nat, b: nat, c: nat)
    requires a < 256 && b < 256 && c < 256
    ensures a / 4 * 4 + (a % 4 * 16 + b / 16) / 16 == a
    ensures (a % 4 * 16 + b / 16) % 16 * 16 + (b % 16 * 4 + c / 64) / 4 == b
    ensures (b % 16 * 4 + c / 64) % 4 * 64 + c % 64 == c
  {
  }

  predicate IsControl(c: char) {
    c < ' ' || c == '\U{007F}'
  }

  predicate HasControl(s: string) {
    exists i :: 0 <= i < |s| && IsControl(s[i])
  }

  function Authority(host: string, port: nat): string {
    host + ":" + Decimal(port)
  }

  function Headers(host: string, port: nat, credentials: Option<string>): (lines: seq<string>)
    ensures |lines| == if credentials.None? then 2 else 3
  {
    ["CONNECT " + Authority(host, port) + " HTTP/1.1", "host: " + Authority(host, port)]
    + match credentials
      case None => []
      case Some(plain) => ["proxy-authorization: Basic " + Base64(Encode(plain))]
  }

  function RequestText(host: string, port: nat, credentials: Option<string>): string {
    Text.Join(Headers(host, port, credentials), "\r\n") + "\r\n\r\n"
  }

  /** The errors found before a byte is written, or the request. */
  function Preflight(host: string, port: int, username: Option<string>, password: Option<string>):
    Result<string, ErrorCode>
  {
    match Endpoint.ParseProxyHost(host)
    case Err(_) => Err(InvalidProxyConfig)
    case Ok(h) =>
      match Endpoint.ParseProxyPort(port)
      case Err(_) => Err(InvalidProxyConfig)
      case Ok(p) =>
        if username.None? then Ok(RequestText(h, p, None))
        else if password.None? || password.value == "" then Err(PasswordMissing)
        else if HasControl(username.value) || HasControl(password.value) then Err(InvalidProxyConfig)
        else Ok(RequestText(h, p, Some(username.value + ":" + password.value)))
  }

  /** What is refused before a byte is written: a target, a missing password, or control characters. */
  lemma PreflightPasses(host: string, port: int, username: Option<string>, password: Option<string>)
    ensures Preflight(host, port, username, password).Ok?
       <==> && Endpoint.ParseProxyHost(host).Ok? && 1 <= port <= 65535
            && (username.Some? ==>
                  && password.Some? && password.value != ""
                  && (forall c :: c in username.value ==> c >= '\U{0020}' && c != '\U{007F}')
                  && (forall c :: c in password.value ==> c >= '\U{0020}' && c != '\U{007F}'))
    ensures Preflight(host, port, username, password) == Err(PasswordMissing)
       <==> && Endpoint.ParseProxyHost(host).Ok? && 1 <= port <= 65535
            && username.Some? && password in {None, Some("")}
  {
    if username.Some? && password.Some? {
      ControlIs(username.value);
      ControlIs(password.value);
    }
  }

  lemma ControlIs(s: string)
    ensures !HasControl(s) <==> forall c :: c in s ==> c >= '\U{0020}' && c != '\U{007F}'
  {
    if !HasControl(s) {
      forall c | c in s ensures c >= '\U{0020}' && c != '\U{007F}' {
        var i :| 0 <= i < |s| && s[i] == c;
        assert !IsControl(s[i]);
      }
    } else {
      var i :| 0 <= i < |s| && IsControl(s[i]);
      assert s[i] in s;
    }
  }

  predicate IsLineChar(c: char) {
    ' ' <= c <= '~'
  }

  ghost predicate Line(s: string) {
    s != "" && forall i :: 0 <= i < |s| ==> IsLineChar(s[i])
  }

  lemma {:induction false} Base64IsPlain(bytes: seq<Byte>)
    ensures forall i :: 0 <= i < |Base64(bytes)| ==> IsLineChar(Base64(bytes)[i])
    decreases |bytes|
  {
    if |bytes| > 3 {
      Base64IsPlain(bytes[3..]);
    }
  }

  /** The index of the first line break at or after `from`, or the length when there is none. */
  function BreakFrom(s: string, from: nat): (i: nat)
    requires from <= |s|
    ensures from <= i <= |s| && (i < |s| ==> i + 1 < |s| && s[i] == '\r' && s[i + 1] == '\n')
    ensures forall j :: from <= j < i && j + 1 < |s| ==> !(s[j] == '\r' && s[j + 1] == '\n')
    decreases |s| - from
  {
    if from == |s| || (from + 1 < |s| && s[from] == '\r' && s[from + 1] == '\n') then from
    else BreakFrom(s, from + 1)
  }

  /** The lines of a text, as its reader finds them. */
  function SplitLines(s: string): seq<string> {
    var i := BreakFrom(s, 0);
    if i == |s| then [s] else [s[..i]] + SplitLines(s[i + 2..])
  }

  lemma LineFirst(line: string, rest: string)
    requires '\r' !in line
    ensures SplitLines(line + "\r\n" + rest) == [line] + SplitLines(rest)
  {
    var s := line + "\r\n" + rest;
    var n := |line|;
    assert s[..n] == line && s[n] == '\r' && s[n + 1] == '\n' && s[n + 2..] == rest;
    assert forall i :: 0 <= i < n ==> s[i] == line[i];
    assert BreakFrom(s, 0) == n;
  }

  lemma EmptyLines()
    ensures SplitLines("\r\n") == ["", ""]
  {
    assert SplitLines("") == [""];
    LineFirst("", "");
    assert "" + "\r\n" + "" == "\r\n";
  }

  /** Each line with its break, and an empty one. */
  function Closed(lines: seq<string>): string {
    if lines == [] then "\r\n" else lines[0] + "\r\n" + Closed(lines[1..])
  }

  lemma {:induction false} JoinedIsClosed(lines: seq<string>)
    requires lines != []
    ensures Text.Join(lines, "\r\n") + "\r\n\r\n" == Closed(lines)
  {
    if |lines| == 1 {
      assert Closed(lines) == lines[0] + "\r\n" + Closed([]);
      assert lines[0] + "\r\n\r\n" == lines[0] + "\r\n" + "\r\n";
    } else {
      JoinedIsClosed(lines[1..]);
      Associates(lines[0] + "\r\n", Text.Join(lines[1..], "\r\n"), "\r\n\r\n");
    }
  }

  /** Lines without carriage returns, closed by an empty one, are found again. */
  lemma {:induction false} LinesAreFound(lines: seq<string>)
    requires Text.Free(lines, '\r')
    ensures SplitLines(Closed(lines)) == lines + ["", ""]
  {
    if lines == [] {
      EmptyLines();
    } else {
      LinesAreFound(lines[1..]);
      assert lines[0] in lines;
      LineFirst(lines[0], Closed(lines[1..]));
      OneMore(lines, ["", ""]);
    }
  }

  lemma OneMore(lines: seq<string>, end: seq<string>)
    requires lines != []
    ensures [lines[0]] + (lines[1..] + end) == lines + end
  {
  }

  lemma PlainAuthority(host: string, port: nat)
    requires Endpoint.IsPlainHost(host)
    ensures Line(Authority(host, port))
  {
    var digits := Decimal(port);
    forall i | 0 <= i < |digits| ensures IsLineChar(digits[i]) {
      assert Digit(digits[i]) < 10;
    }
    forall i | 0 <= i < |host| ensures IsLineChar(host[i]) {
      assert Endpoint.IsHostChar(host[i]);
    }
  }

  lemma RequestLines(authority: string)
    requires Line(authority)
    ensures Line("CONNECT " + authority + " HTTP/1.1") && Line("host: " + authority)
  {
  }

  lemma CredentialLine(plain: string)
    ensures Line("proxy-authorization: Basic " + Base64(Encode(plain)))
  {
    Base64IsPlain(Encode(plain));
  }

  lemma HeadersAreLines(host: string, port: nat, credentials: Option<string>)
    requires Endpoint.IsPlainHost(host)
    ensures forall i :: 0 <= i < |Headers(host, port, credentials)| ==> Line(Headers(host, port, credentials)[i])
  {
    PlainAuthority(host, port);
    RequestLines(Authority(host, port));
    if credentials.Some? {
      CredentialLine(credentials.value);
    }
  }

  lemma LinesHaveNoReturn(lines: seq<string>)
    requires forall i :: 0 <= i < |lines| ==> Line(lines[i])
    ensures Text.Free(lines, '\r') && Text.Free(lines, '\n')
  {
    forall i | 0 <= i < |lines| ensures '\r' !in lines[i] && '\n' !in lines[i] {
      assert Line(lines[i]);
    }
  }

  /**
   * No host, port or credential adds a line to the request: whoever splits it at its line breaks
   * finds the two or three lines that were meant, all printable, and then the empty line.
   */
  lemma RequestIsItsLines(host: string, port: int, username: Option<string>, password: Option<string>)
    requires Preflight(host, port, username, password).Ok?
    ensures var h := Endpoint.ParseProxyHost(host).value;
            var credentials := if username.None? then None else Some(username.value + ":" + password.value);
            var lines := Headers(h, port, credentials);
            && SplitLines(Preflight(host, port, username, password).value) == lines + ["", ""]
            && (forall i :: 0 <= i < |lines| ==> Line(lines[i]))
            && (credentials.Some? ==>
                  exists code :: lines[2] == "proxy-authorization: Basic " + code
                                 && FromBase64(code) == Some(Encode(credentials.value)))
  {
    var h := Endpoint.ParseProxyHost(host).value;
    var credentials := if username.None? then None else Some(username.value + ":" + password.value);
    Endpoint.AcceptedHostIsPlain(host);
    HeadersAreLines(h, port, credentials);
    LinesHaveNoReturn(Headers(h, port, credentials));
    LinesAreFound(Headers(h, port, credentials));
    JoinedIsClosed(Headers(h, port, credentials));
    if credentials.Some? {
      Base64ReadsBack(Encode(credentials.value));
    }
  }

  // ---- the handshake -----------------------------------------------------------------------------

  lemma EndsInPrefix(s: seq<Byte>, n: nat)
    requires n <= |s|
    ensures EndsAt(s[..n], n) == EndsAt(s, n)
  {
  }

  /** Where reading byte by byte stops. */
  lemma ReadStops(s: seq<Byte>, i: nat)
    requires i <= |s| && i <= MAX_HEADER_BYTES && HeaderEnd(s, 0) == HeaderEnd(s, i)
    ensures i == |s| ==> Read(s) == Starved(i)
    ensures i < |s| && EndsAt(s, i + 1) ==> Read(s) == Block(i + 1)
    ensures i < |s| && !EndsAt(s, i + 1) ==> HeaderEnd(s, 0) == HeaderEnd(s, i + 1)
    ensures i < |s| && !EndsAt(s, i + 1) && i + 1 > MAX_HEADER_BYTES ==> Read(s) == TooLarge(i + 1)
  {
  }

  method NextByte(reader: HandshakeReader, block: seq<Byte>, ghost s: seq<Byte>)
    returns (r: Result<seq<Byte>, ErrorCode>)
    requires reader.Valid() && |block| <= |s| && block == s[..|block|] && reader.Pending() == s[|block|..]
    modifies reader, reader.socket`events
    ensures reader.Valid() && Fate(reader.socket.events) == Fate(old(reader.socket.events))
    ensures r.Ok? <==> |block| < |s|
    ensures r.Ok? ==> r.value == s[..|block| + 1] && reader.Pending() == s[|block| + 1..]
    ensures r.Err? ==> r.error == FateCode(old(reader.socket.events)) && reader.Pending() == s[|block|..]
  {
    var next := reader.ReadExactly(1);
    if next.Err? {
      return Err(next.error);
    }
    ghost var i := |block|;
    assert s[i..][..1] == [s[i]] && s[i..][1..] == s[i + 1..] && s[..i] + [s[i]] == s[..i + 1];
    return Ok(block + next.value);
  }

  /** Byte by byte up to the empty line, so that nothing behind it is taken from the tunnel. */
  method ReadBlock(reader: HandshakeReader, ghost s: seq<Byte>) returns (r: Result<seq<Byte>, ErrorCode>)
    requires reader.Valid() && reader.Pending() == s
    modifies reader, reader.socket`events
    ensures reader.Valid() && Fate(reader.socket.events) == Fate(old(reader.socket.events))
    ensures reader.Pending() == s[Read(s).used..]
    ensures match Read(s)
            case Block(n) => r == Ok(s[..n])
            case TooLarge(_) => r == Err(ProtocolError)
            case Starved(_) => r == Err(FateCode(old(reader.socket.events)))
  {
    var block: seq<Byte> := [];
    assert s[0..] == s;
    while true
      invariant reader.Valid() && Fate(reader.socket.events) == Fate(old(reader.socket.events))
      invariant |block| <= |s| && block == s[..|block|] && reader.Pending() == s[|block|..]
      invariant |block| <= MAX_HEADER_BYTES && HeaderEnd(s, 0) == HeaderEnd(s, |block|)
      decreases MAX_HEADER_BYTES - |block|
    {
      ReadStops(s, |block|);
      var next := NextByte(reader, block, s);
      if next.Err? {
        return Err(next.error);
      }
      block := next.value;
      EndsInPrefix(s, |block|);
      if EndsAt(block, |block|) {
        return Ok(block);
      }
      if |block| > MAX_HEADER_BYTES {
        return Err(ProtocolError);
      }
    }
  }

  method HttpConnect(socket: Socket, host: string, port: int, username: Option<string>, password: Option<string>)
    returns (r: Result<(), ErrorCode>)
    modifies socket
    ensures Fate(socket.events) == Fate(old(socket.events))
    ensures match Preflight(host, port, username, password)
            case Err(code) =>
              r == Err(code) && socket.events == old(socket.events) && socket.written == old(socket.written)
            case Ok(request) =>
              var s := Received(old(socket.events));
              && r == Outcome(s, FateCode(old(socket.events)))
              && Received(socket.events) == s[Read(s).used..]
              && socket.written == old(socket.written) + Encode(request)
  {
    var request := Preflight(host, port, username, password);
    if request.Err? {
      return Err(request.error);
    }
    var reader := new HandshakeReader(socket);
    socket.Write(Encode(request.value));
    var block := ReadBlock(reader, Received(socket.events));
    reader.Release();
    if block.Err? {
      return Err(block.error);
    }
    var failure := Judge(block.value);
    r := if failure.Some? then Err(failure.value) else Ok(());
  }
}
