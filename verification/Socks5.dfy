/** The SOCKS5 `CONNECT` handshake (RFC 1928) with username and password (RFC 1929). */
module Socks5 {
  import opened Prelude
  import opened Utf8
  import opened Handshake
  import TargetEncoding

  const VERSION: Byte := 5
  const METHOD_NONE: Byte := 0
  const METHOD_USERPASS: Byte := 2
  const METHOD_NONE_ACCEPTABLE: Byte := 255
  const CMD_CONNECT: Byte := 1
  const USERPASS_VERSION: Byte := 1
  const MAX_FIELD_BYTES := 255

  function MapReply(reply: Byte): Option<ErrorCode> {
    match reply
    case 0 => None
    case 1 => Some(ProxyFailure)
    case 2 => Some(Forbidden)
    case 3 => Some(Unreachable)
    case 4 => Some(Unreachable)
    case 5 => Some(Refused)
    case 6 => Some(TimedOut)
    case 7 => Some(UnsupportedOperation)
    case 8 => Some(UnsupportedOperation)
    case _ => Some(ProtocolError)
  }

  // ---- what the client makes of a byte stream --------------------------------------------------

  /** Where reading stopped, and why. `Starved`: the stream was too short for the next read. */
  datatype Verdict = Accepted(used: nat) | Rejected(code: ErrorCode, used: nat) | Starved(used: nat)

  function Negotiate(useAuth: bool, s: seq<Byte>): (v: Verdict)
    ensures v.used <= |s|
  {
    if |s| < 2 then Starved(0)
    else if s[0] != VERSION then Rejected(ProtocolError, 2)
    else if s[1] == METHOD_NONE_ACCEPTABLE then Rejected(AuthFailed, 2)
    else if s[1] == METHOD_NONE then ReadReply(s, 2)
    else if useAuth && s[1] == METHOD_USERPASS then ReadStatus(s, 2)
    else Rejected(ProtocolError, 2)
  }

  function ReadStatus(s: seq<Byte>, at: nat): (v: Verdict)
    requires at <= |s|
    ensures v.used <= |s|
  {
    if |s| < at + 2 then Starved(at)
    else if s[at] != USERPASS_VERSION then Rejected(ProtocolError, at + 2)
    else if s[at + 1] != 0 then Rejected(AuthFailed, at + 2)
    else ReadReply(s, at + 2)
  }

  function ReadReply(s: seq<Byte>, at: nat): (v: Verdict)
    requires at <= |s|
    ensures v.used <= |s|
  {
    if |s| < at + 4 then Starved(at)
    else if s[at] != VERSION then Rejected(ProtocolError, at + 4)
    else if MapReply(s[at + 1]).Some? then Rejected(MapReply(s[at + 1]).value, at + 4)
    else ReadAddress(s, at + 4, s[at + 3])
  }

  function ReadAddress(s: seq<Byte>, at: nat, atyp: Byte): (v: Verdict)
    requires at <= |s|
    ensures v.used <= |s|
  {
    if atyp == TargetEncoding.ATYP_IPV4 then ReadRest(s, at, 6)
    else if atyp == TargetEncoding.ATYP_IPV6 then ReadRest(s, at, 18)
    else if atyp == TargetEncoding.ATYP_DOMAIN then
      if |s| < at + 1 then Starved(at) else ReadRest(s, at + 1, s[at] as nat + 2)
    else Rejected(ProtocolError, at)
  }

  function ReadRest(s: seq<Byte>, at: nat, count: nat): (v: Verdict)
    requires at <= |s|
    ensures v.used <= |s|
  {
    if |s| < at + count then Starved(at) else Accepted(at + count)
  }

  // ---- what a proxy sends ------------------------------------------------------------------------

  datatype Bound = BoundV4(octets: seq<Byte>) | BoundV6(bytes: seq<Byte>) | BoundName(name: seq<Byte>)

  /** A successful dialogue from the proxy's side: method, authentication status, reply. */
  datatype Success = Success(auth: bool, reserved: Byte, bound: Bound, port: seq<Byte>) {
    predicate Valid() {
      && |port| == 2
      && match bound
         case BoundV4(octets) => |octets| == 4
         case BoundV6(bytes) => |bytes| == 16
         case BoundName(name) => |name| <= MAX_FIELD_BYTES
    }
  }

  function EncodeBound(bound: Bound): seq<Byte>
    requires bound.BoundName? ==> |bound.name| <= MAX_FIELD_BYTES
  {
    match bound
    case BoundV4(octets) => [TargetEncoding.ATYP_IPV4] + octets
    case BoundV6(bytes) => [TargetEncoding.ATYP_IPV6] + bytes
    case BoundName(name) => [TargetEncoding.ATYP_DOMAIN, |name|] + name
  }

  function Opening(auth: bool): seq<Byte> {
    if auth then [VERSION, METHOD_USERPASS, USERPASS_VERSION, 0] else [VERSION, METHOD_NONE]
  }

  function EncodeSuccess(reply: Success): seq<Byte>
    requires reply.Valid()
  {
    Opening(reply.auth) + [VERSION, 0, reply.reserved] + EncodeBound(reply.bound) + reply.port
  }

  /** A reply whose opening is already known, at its place in the stream. */
  lemma ReplyIsAccepted(before: seq<Byte>, reply: Success, rest: seq<Byte>)
    requires reply.Valid()
    ensures var s := before + [VERSION, 0, reply.reserved] + EncodeBound(reply.bound) + reply.port + rest;
            ReadReply(s, |before|) == Accepted(|s| - |rest|)
  {
    var s := before + [VERSION, 0, reply.reserved] + EncodeBound(reply.bound) + reply.port + rest;
    var at := |before|;
    assert s[at] == VERSION && s[at + 1] == 0;
    assert s[at + 3] == EncodeBound(reply.bound)[0];
    if reply.bound.BoundName? {
      assert s[at + 4] == EncodeBound(reply.bound)[1];
    }
  }

  /**
   * A proxy's successful dialogue is accepted, whatever follows it, and exactly its own bytes
   * are consumed.
   */
  lemma SuccessIsAccepted(useAuth: bool, reply: Success, rest: seq<Byte>)
    requires reply.Valid() && (reply.auth ==> useAuth)
    ensures Negotiate(useAuth, EncodeSuccess(reply) + rest) == Accepted(|EncodeSuccess(reply)|)
  {
    var s := EncodeSuccess(reply) + rest;
    var opening := Opening(reply.auth);
    assert s == opening + [VERSION, 0, reply.reserved] + EncodeBound(reply.bound) + reply.port + rest;
    assert forall i :: 0 <= i < |opening| ==> s[i] == opening[i];
    ReplyIsAccepted(opening, reply, rest);
  }

  /** The other way round: only a proxy's successful dialogue is accepted. */
  lemma AcceptedIsSuccess(useAuth: bool, s: seq<Byte>) returns (reply: Success)
    requires Negotiate(useAuth, s).Accepted?
    ensures reply.Valid() && (reply.auth ==> useAuth)
    ensures s[..Negotiate(useAuth, s).used] == EncodeSuccess(reply)
  {
    var auth := s[1] == METHOD_USERPASS;
    var at := if auth then 4 else 2;
    assert s[..at] == Opening(auth);
    reply := ReplyAt(s, at, auth);
  }

  /** Why a proxy does not connect (section 6 of RFC 1928), numbered from 1. */
  datatype Reason = GeneralFailure | NotAllowed | NetworkUnreachable | HostUnreachable | ConnectionRefused
                  | TtlExpired | CommandNotSupported | AddressTypeNotSupported

  /** How a proxy refuses: no method, wrong credentials, or a reply with its reason. */
  datatype Refusal =
    | NoMethod
    | WrongLogin(status: Byte)
    | NoConnection(auth: bool, reason: Reason, reserved: Byte, atyp: Byte)

  function Number(reason: Reason): Byte {
    match reason
    case GeneralFailure => 1
    case NotAllowed => 2
    case NetworkUnreachable => 3
    case HostUnreachable => 4
    case ConnectionRefused => 5
    case TtlExpired => 6
    case CommandNotSupported => 7
    case AddressTypeNotSupported => 8
  }

  function EncodeRefusal(refusal: Refusal): seq<Byte> {
    match refusal
    case NoMethod => [5, 255]
    case WrongLogin(status) => [5, 2, 1, status]
    case NoConnection(auth, reason, reserved, atyp) => Opening(auth) + [5, Number(reason), reserved, atyp]
  }

  /** What the caller is told of a refusal. */
  function Told(refusal: Refusal): ErrorCode {
    match refusal
    case NoConnection(_, GeneralFailure, _, _) => ProxyFailure
    case NoConnection(_, NotAllowed, _, _) => Forbidden
    case NoConnection(_, NetworkUnreachable, _, _) => Unreachable
    case NoConnection(_, HostUnreachable, _, _) => Unreachable
    case NoConnection(_, ConnectionRefused, _, _) => Refused
    case NoConnection(_, TtlExpired, _, _) => TimedOut
    case NoConnection(_, _, _, _) => UnsupportedOperation
    case _ => AuthFailed
  }

  predicate IsPossible(useAuth: bool, refusal: Refusal) {
    match refusal
    case NoMethod => true
    case WrongLogin(status) => useAuth && status != 0
    case NoConnection(auth, _, _, _) => auth ==> useAuth
  }

  /** Every refusal of a proxy is reported as what it is, and exactly its bytes are consumed. */
  lemma RefusalIsTold(useAuth: bool, refusal: Refusal, rest: seq<Byte>)
    requires IsPossible(useAuth, refusal)
    ensures Negotiate(useAuth, EncodeRefusal(refusal) + rest) == Rejected(Told(refusal), |EncodeRefusal(refusal)|)
  {
    var s := EncodeRefusal(refusal) + rest;
    if refusal.NoConnection? {
      var opening := Opening(refusal.auth);
      assert forall i :: 0 <= i < |opening| ==> s[i] == opening[i];
      assert s[|opening|] == 5 && s[|opening| + 1] == Number(refusal.reason);
    } else {
      assert forall i :: 0 <= i < |EncodeRefusal(refusal)| ==> s[i] == EncodeRefusal(refusal)[i];
    }
  }

  function ReasonOf(number: Byte): Reason {
    if number == 1 then GeneralFailure else if number == 2 then NotAllowed else if number == 3 then NetworkUnreachable
    else if number == 4 then HostUnreachable else if number == 5 then ConnectionRefused
    else if number == 6 then TtlExpired else if number == 7 then CommandNotSupported else AddressTypeNotSupported
  }

  /** The other way round: what is rejected is such a refusal, or breaks the protocol. */
  lemma RejectedIsRefusal(useAuth: bool, s: seq<Byte>) returns (refusal: Refusal)
    requires Negotiate(useAuth, s).Rejected? && Negotiate(useAuth, s).code != ProtocolError
    ensures IsPossible(useAuth, refusal) && Told(refusal) == Negotiate(useAuth, s).code
    ensures s[..Negotiate(useAuth, s).used] == EncodeRefusal(refusal)
  {
    var v := Negotiate(useAuth, s);
    if s[1] == 255 {
      refusal := NoMethod;
    } else if v.code == AuthFailed {
      refusal := WrongLogin(s[3]);
    } else {
      var auth := s[1] == 2;
      var at := |Opening(auth)|;
      refusal := NoConnection(auth, ReasonOf(s[at + 1]), s[at + 2], s[at + 3]);
      assert s[..at] == Opening(auth);
      assert s[..at + 4] == s[..at] + [s[at], s[at + 1], s[at + 2], s[at + 3]];
    }
  }

  /** A dialogue cut short anywhere gives no verdict yet. */
  lemma CutDialogueStarves(useAuth: bool, reply: Success, cut: nat)
    requires reply.Valid() && (reply.auth ==> useAuth) && cut < |EncodeSuccess(reply)|
    ensures Negotiate(useAuth, EncodeSuccess(reply)[..cut]).Starved?
  {
    var whole := EncodeSuccess(reply);
    var v := Negotiate(useAuth, whole[..cut]);
    SuccessIsAccepted(useAuth, reply, []);
    assert whole + [] == whole && whole[..cut] + whole[cut..] == whole;
    VerdictIsFinal(useAuth, whole[..cut], whole[cut..]);
  }

  lemma FourParts(s: seq<Byte>, a: nat, b: nat, c: nat, d: nat)
    requires a <= b <= c <= d <= |s|
    ensures s[..d] == s[..a] + s[a..b] + s[b..c] + s[c..d]
  {
  }

  lemma FirstBytes(s: seq<Byte>, i: nat, j: nat)
    requires i + 2 <= j <= |s|
    ensures s[i..j] == [s[i]] + s[i + 1..j] == [s[i], s[i + 1]] + s[i + 2..j]
  {
  }

  lemma BoundAt(s: seq<Byte>, at: nat) returns (bound: Bound)
    requires at <= |s| && ReadReply(s, at).Accepted?
    ensures at + 5 <= ReadReply(s, at).used - 2
    ensures Success(false, 0, bound, [0, 0]).Valid() && EncodeBound(bound) == s[at + 3..ReadReply(s, at).used - 2]
  {
    var used := ReadReply(s, at).used;
    var atyp := s[at + 3];
    FirstBytes(s, at + 3, used - 2);
    if atyp == TargetEncoding.ATYP_IPV4 {
      bound := BoundV4(s[at + 4..used - 2]);
    } else if atyp == TargetEncoding.ATYP_IPV6 {
      bound := BoundV6(s[at + 4..used - 2]);
    } else {
      bound := BoundName(s[at + 5..used - 2]);
    }
  }

  lemma ReplyAt(s: seq<Byte>, at: nat, auth: bool) returns (reply: Success)
    requires at <= |s| && ReadReply(s, at).Accepted? && s[..at] == Opening(auth)
    ensures reply.Valid() && reply.auth == auth && s[..ReadReply(s, at).used] == EncodeSuccess(reply)
  {
    var used := ReadReply(s, at).used;
    var bound := BoundAt(s, at);
    reply := Success(auth, s[at + 2], bound, s[used - 2..used]);
    MapReplyZero(s[at + 1]);
    FourParts(s, at, at + 3, used - 2, used);
    assert s[at..at + 3] == [VERSION, 0, s[at + 2]];
  }

  lemma MapReplyZero(reply: Byte)
    ensures MapReply(reply).None? <==> reply == 0
  {
  }

  /** A verdict is final: bytes behind it change nothing. */
  lemma VerdictIsFinal(useAuth: bool, s: seq<Byte>, more: seq<Byte>)
    ensures !Negotiate(useAuth, s).Starved? ==> Negotiate(useAuth, s + more) == Negotiate(useAuth, s)
  {
    var t := s + more;
    assert forall i :: 0 <= i < |s| ==> t[i] == s[i];
  }

  // ---- what the client sends ---------------------------------------------------------------------

  datatype Credentials = Credentials(username: seq<Byte>, password: seq<Byte>)

  function Hello(useAuth: bool): seq<Byte> {
    if useAuth then [VERSION, 2, METHOD_NONE, METHOD_USERPASS] else [VERSION, 1, METHOD_NONE]
  }

  function Login(c: Credentials): seq<Byte>
    requires |c.username| <= MAX_FIELD_BYTES && |c.password| <= MAX_FIELD_BYTES
  {
    [USERPASS_VERSION, |c.username|] + c.username + [|c.password|] + c.password
  }

  function Request(target: seq<Byte>): seq<Byte> {
    [VERSION, CMD_CONNECT, 0] + target
  }

  /** Credentials go out when the proxy asks for them, the request once the proxy is content. */
  predicate AsksLogin(useAuth: bool, s: seq<Byte>) {
    useAuth && |s| >= 2 && s[0] == VERSION && s[1] == METHOD_USERPASS
  }

  predicate Content(useAuth: bool, s: seq<Byte>) {
    && |s| >= 2 && s[0] == VERSION
    && (s[1] == METHOD_NONE || (AsksLogin(useAuth, s) && |s| >= 4 && s[2] == USERPASS_VERSION && s[3] == 0))
  }

  /** What has been written when the handshake stops at a verdict over `s`. */
  function Sent(credentials: Option<Credentials>, target: seq<Byte>, s: seq<Byte>): seq<Byte>
    requires credentials.Some? ==>
               |credentials.value.username| <= MAX_FIELD_BYTES && |credentials.value.password| <= MAX_FIELD_BYTES
  {
    Hello(credentials.Some?) + AfterHello(credentials, target, s)
  }

  function AfterHello(credentials: Option<Credentials>, target: seq<Byte>, s: seq<Byte>): seq<Byte>
    requires credentials.Some? ==>
               |credentials.value.username| <= MAX_FIELD_BYTES && |credentials.value.password| <= MAX_FIELD_BYTES
  {
    (if AsksLogin(credentials.Some?, s) then Login(credentials.value) else [])
    + (if Content(credentials.Some?, s) then Request(target) else [])
  }

  /**
   * The client speaks in turn: the greeting first, the login only behind a method reply that asks
   * for it, and the request only once the proxy is content with no login or with the one it got.
   */
  lemma SpokenInTurn(credentials: Option<Credentials>, target: seq<Byte>, s: seq<Byte>)
    requires credentials.Some? ==>
               |credentials.value.username| <= MAX_FIELD_BYTES && |credentials.value.password| <= MAX_FIELD_BYTES
    ensures Sent(credentials, target, s) == Hello(credentials.Some?) + (
              if [5, 0] <= s then Request(target)
              else if credentials.None? then []
              else if [5, 2, 1, 0] <= s then Login(credentials.value) + Request(target)
              else if [5, 2] <= s then Login(credentials.value)
              else [])
  {
    assert [5, 2, 1, 0] <= s ==> [5, 2] <= s && s[2] == 1 && s[3] == 0;
  }

  /** The errors found before a byte is written. */
  function Preflight(host: string, port: int, username: Option<string>, password: Option<string>):
    Result<(seq<Byte>, Option<Credentials>), ErrorCode>
  {
    match TargetEncoding.EncodeTarget(host, port)
    case Err(_) => Err(InvalidProxyConfig)
    case Ok(target) =>
      if username.None? then Ok((target, None))
      else if password.None? || password.value == "" then Err(PasswordMissing)
      else
        var user, pass := Encode(username.value), Encode(password.value);
        if |user| > MAX_FIELD_BYTES || |pass| > MAX_FIELD_BYTES || username.value == "" then Err(InvalidProxyConfig)
        else Ok((target, Some(Credentials(user, pass))))
  }

  /** What is refused before a byte is written: a target, a missing password, or credentials of a bad length. */
  lemma PreflightPasses(host: string, port: int, username: Option<string>, password: Option<string>)
    ensures Preflight(host, port, username, password).Ok?
       <==> && TargetEncoding.EncodeTarget(host, port).Ok?
            && (username.Some? ==>
                  && username.value != "" && |Encode(username.value)| <= 255
                  && password.Some? && password.value != "" && |Encode(password.value)| <= 255)
    ensures Preflight(host, port, username, password) == Err(PasswordMissing)
       <==> TargetEncoding.EncodeTarget(host, port).Ok? && username.Some? && password in {None, Some("")}
    ensures Preflight(host, port, username, password).Ok? ==>
              Ok(Preflight(host, port, username, password).value.0) == TargetEncoding.EncodeTarget(host, port)
  {
  }

  /** What a proxy reads of the greeting (section 3 of RFC 1928): the methods on offer. */
  function ReadHello(bytes: seq<Byte>): Option<seq<Byte>> {
    if |bytes| < 2 || bytes[0] != 5 || |bytes| != 2 + bytes[1] as int then None else Some(bytes[2..])
  }

  /** What a proxy reads of a login (section 2 of RFC 1929), and what follows it. */
  function ReadLogin(bytes: seq<Byte>): Option<(Credentials, seq<Byte>)> {
    if |bytes| < 2 || bytes[0] != 1 || |bytes| < 3 + bytes[1] as int then None
    else
      var users := bytes[1] as int;
      var passwords := bytes[2 + users] as int;
      if |bytes| < 3 + users + passwords then None
      else Some((Credentials(bytes[2..2 + users], bytes[3 + users..3 + users + passwords]),
                 bytes[3 + users + passwords..]))
  }

  lemma LoginReads(c: Credentials, rest: seq<Byte>)
    requires |c.username| <= MAX_FIELD_BYTES && |c.password| <= MAX_FIELD_BYTES
    ensures ReadLogin(Login(c) + rest) == Some((c, rest))
  {
    var bytes := Login(c) + rest;
    var n := |c.username|;
    assert bytes[1] == n && bytes[2 + n] == |c.password|;
    assert bytes[2..2 + n] == c.username;
    assert bytes[3 + n..3 + n + |c.password|] == c.password;
    assert bytes[3 + n + |c.password|..] == rest;
  }

  /**
   * With credentials the greeting offers user name and password beside no authentication, and a
   * proxy that asks for them reads the caller's own user name and password, in UTF-8; without
   * them nothing else is offered.
   */
  lemma LoginNamesTheCaller(host: string, port: int, username: Option<string>, password: Option<string>,
                            rest: seq<Byte>)
    requires Preflight(host, port, username, password).Ok?
    ensures var credentials := Preflight(host, port, username, password).value.1;
            && ReadHello(Hello(credentials.Some?)) == Some(if username.Some? then [0, 2] else [0])
            && (username.None? ==> credentials.None?)
            && (username.Some? ==>
                  && credentials.Some? && password.Some?
                  && ReadLogin(Login(credentials.value) + rest)
                     == Some((Credentials(Encode(username.value), Encode(password.value)), rest)))
  {
    if username.Some? {
      LoginReads(Credentials(Encode(username.value), Encode(password.value)), rest);
    }
  }

  /** The outcome of the whole handshake over a stream. */
  function Outcome(v: Verdict, starved: ErrorCode): Result<(), ErrorCode> {
    match v
    case Accepted(_) => Ok(())
    case Rejected(code, _) => Err(code)
    case Starved(_) => Err(starved)
  }

  // ---- the handshake -------------------------------------------------------------------------------

  /** Read on at a known place of the stream. */
  method Next(reader: HandshakeReader, ghost s: seq<Byte>, ghost at: nat, count: nat)
    returns (r: Result<seq<Byte>, ErrorCode>)
    requires reader.Valid() && at <= |s| && reader.Pending() == s[at..]
    modifies reader, reader.socket`events
    ensures reader.Valid() && Fate(reader.socket.events) == Fate(old(reader.socket.events))
    ensures r.Ok? <==> at + count <= |s|
    ensures r.Ok? ==> r.value == s[at..at + count] && reader.Pending() == s[at + count..]
    ensures r.Err? ==> r.error == FateCode(old(reader.socket.events)) && reader.Pending() == s[at..]
  {
    r := reader.ReadExactly(count);
    if r.Ok? {
      assert s[at..][..count] == s[at..at + count] && s[at..][count..] == s[at + count..];
    }
  }

  method TakeAddress(reader: HandshakeReader, ghost s: seq<Byte>, ghost at: nat, atyp: Byte)
    returns (r: Result<(), ErrorCode>)
    requires reader.Valid() && at <= |s| && reader.Pending() == s[at..]
    modifies reader, reader.socket`events
    ensures reader.Valid() && Fate(reader.socket.events) == Fate(old(reader.socket.events))
    ensures var v := ReadAddress(s, at, atyp);
            r == Outcome(v, FateCode(old(reader.socket.events))) && reader.Pending() == s[v.used..]
  {
    var rest;
    if atyp == TargetEncoding.ATYP_IPV4 {
      rest := Next(reader, s, at, 4 + 2);
    } else if atyp == TargetEncoding.ATYP_IPV6 {
      rest := Next(reader, s, at, 16 + 2);
    } else if atyp == TargetEncoding.ATYP_DOMAIN {
      var lengthByte := Next(reader, s, at, 1);
      if lengthByte.Err? {
        return Err(lengthByte.error);
      }
      rest := Next(reader, s, at + 1, lengthByte.value[0] as nat + 2);
    } else {
      return Err(ProtocolError);
    }
    r := if rest.Err? then Err(rest.error) else Ok(());
  }

  method TakeReply(reader: HandshakeReader, ghost s: seq<Byte>, ghost at: nat) returns (r: Result<(), ErrorCode>)
    requires reader.Valid() && at <= |s| && reader.Pending() == s[at..]
    modifies reader, reader.socket`events
    ensures reader.Valid() && Fate(reader.socket.events) == Fate(old(reader.socket.events))
    ensures var v := ReadReply(s, at);
            r == Outcome(v, FateCode(old(reader.socket.events))) && reader.Pending() == s[v.used..]
  {
    var head := Next(reader, s, at, 4);
    if head.Err? {
      return Err(head.error);
    }
    if head.value[0] != VERSION {
      return Err(ProtocolError);
    }
    var failure := MapReply(head.value[1]);
    if failure.Some? {
      return Err(failure.value);
    }
    r := TakeAddress(reader, s, at + 4, head.value[3]);
  }

  /** The stream's method reply, when it is one of those offered. */
  method TakeMethod(reader: HandshakeReader, offered: bool, ghost s: seq<Byte>) returns (r: Result<Byte, ErrorCode>)
    requires reader.Valid() && reader.Pending() == s
    modifies reader, reader.socket`events
    ensures reader.Valid() && Fate(reader.socket.events) == Fate(old(reader.socket.events))
    ensures r.Ok? ==>
              && |s| >= 2 && s[0] == VERSION && r.value == s[1] && reader.Pending() == s[2..]
              && (s[1] == METHOD_NONE || (offered && s[1] == METHOD_USERPASS))
    ensures r.Err? ==>
              && (|s| < 2 || s[0] != VERSION || !(s[1] == METHOD_NONE || (offered && s[1] == METHOD_USERPASS)))
              && var v := Negotiate(offered, s);
                 r.error == (if v.Rejected? then v.code else FateCode(old(reader.socket.events)))
                 && !v.Accepted? && reader.Pending() == s[v.used..]
  {
    assert s[0..] == s;
    var greeting := Next(reader, s, 0, 2);
    if greeting.Err? {
      return Err(greeting.error);
    }
    if greeting.value[0] != VERSION {
      return Err(ProtocolError);
    }
    var chosen := greeting.value[1];
    if chosen == METHOD_NONE_ACCEPTABLE {
      return Err(AuthFailed);
    }
    if !(chosen == METHOD_NONE || (offered && chosen == METHOD_USERPASS)) {
      return Err(ProtocolError);
    }
    return Ok(chosen);
  }

  /** Send the credentials and read the status. */
  method Authenticate(reader: HandshakeReader, c: Credentials, ghost s: seq<Byte>) returns (r: Result<(), ErrorCode>)
    requires |c.username| <= MAX_FIELD_BYTES && |c.password| <= MAX_FIELD_BYTES
    requires reader.Valid() && |s| >= 2 && reader.Pending() == s[2..]
    modifies reader, reader.socket
    ensures reader.Valid() && Fate(reader.socket.events) == Fate(old(reader.socket.events))
    ensures reader.socket.written == old(reader.socket.written) + Login(c)
    ensures r.Ok? <==> |s| >= 4 && s[2] == USERPASS_VERSION && s[3] == 0
    ensures r.Ok? ==> reader.Pending() == s[4..]
    ensures r.Err? ==>
              var v := ReadStatus(s, 2);
              r == Outcome(v, FateCode(old(reader.socket.events))) && reader.Pending() == s[v.used..]
  {
    reader.socket.Write(Login(c));
    var status := Next(reader, s, 2, 2);
    if status.Err? {
      return Err(status.error);
    }
    if status.value[0] != USERPASS_VERSION {
      return Err(ProtocolError);
    }
    if status.value[1] != 0 {
      return Err(AuthFailed);
    }
    return Ok(());
  }

  lemma Append(a: seq<Byte>, b: seq<Byte>, c: seq<Byte>)
    ensures a + b + c == a + (b + c) && a + [] == a && [] + a == a
  {
  }

  /** From the chosen method on. */
  method Proceed(reader: HandshakeReader, credentials: Option<Credentials>, target: seq<Byte>, chosen: Byte,
                 ghost s: seq<Byte>)
    returns (r: Result<(), ErrorCode>)
    requires credentials.Some? ==>
               |credentials.value.username| <= MAX_FIELD_BYTES && |credentials.value.password| <= MAX_FIELD_BYTES
    requires |s| >= 2 && s[0] == VERSION && chosen == s[1] && reader.Valid() && reader.Pending() == s[2..]
    requires s[1] == METHOD_NONE || AsksLogin(credentials.Some?, s)
    modifies reader, reader.socket
    ensures reader.Valid() && Fate(reader.socket.events) == Fate(old(reader.socket.events))
    ensures var v := Negotiate(credentials.Some?, s);
            r == Outcome(v, FateCode(old(reader.socket.events))) && reader.Pending() == s[v.used..]
    ensures reader.socket.written == old(reader.socket.written) + AfterHello(credentials, target, s)
  {
    ghost var before := reader.socket.written;
    if chosen == METHOD_USERPASS {
      Append(before, Login(credentials.value), Request(target));
      Append(Login(credentials.value), [], []);
      var status := Authenticate(reader, credentials.value, s);
      if status.Err? {
        return Err(status.error);
      }
      reader.socket.Write(Request(target));
      r := TakeReply(reader, s, 4);
    } else {
      Append(Request(target), [], []);
      reader.socket.Write(Request(target));
      r := TakeReply(reader, s, 2);
    }
  }

  /** The dialogue up to its verdict; what was not used stays with the reader. */
  method Dialogue(reader: HandshakeReader, credentials: Option<Credentials>, target: seq<Byte>, ghost s: seq<Byte>)
    returns (r: Result<(), ErrorCode>)
    requires credentials.Some? ==>
               |credentials.value.username| <= MAX_FIELD_BYTES && |credentials.value.password| <= MAX_FIELD_BYTES
    requires reader.Valid() && reader.Pending() == s
    modifies reader, reader.socket
    ensures reader.Valid() && Fate(reader.socket.events) == Fate(old(reader.socket.events))
    ensures var v := Negotiate(credentials.Some?, s);
            r == Outcome(v, FateCode(old(reader.socket.events))) && reader.Pending() == s[v.used..]
    ensures reader.socket.written == old(reader.socket.written) + Sent(credentials, target, s)
  {
    Append(reader.socket.written, Hello(credentials.Some?), AfterHello(credentials, target, s));
    reader.socket.Write(Hello(credentials.Some?));
    var chosen := TakeMethod(reader, credentials.Some?, s);
    if chosen.Err? {
      Append(Hello(credentials.Some?), [], []);
      return Err(chosen.error);
    }
    r := Proceed(reader, credentials, target, chosen.value, s);
  }

  /**
   * The handshake decides on the bytes that arrive, whatever their segmentation, and leaves the
   * socket at the first byte it did not use.
   */
  method Socks5Connect(socket: Socket, host: string, port: int, username: Option<string>, password: Option<string>)
    returns (r: Result<(), ErrorCode>)
    modifies socket
    ensures Fate(socket.events) == Fate(old(socket.events))
    ensures match Preflight(host, port, username, password)
            case Err(code) =>
              r == Err(code) && socket.events == old(socket.events) && socket.written == old(socket.written)
            case Ok((target, credentials)) =>
              var s := Received(old(socket.events));
              var v := Negotiate(credentials.Some?, s);
              && r == Outcome(v, FateCode(old(socket.events)))
              && Received(socket.events) == s[v.used..]
              && socket.written == old(socket.written) + Sent(credentials, target, s)
  {
    var checked := Preflight(host, port, username, password);
    if checked.Err? {
      return Err(checked.error);
    }
    var (target, credentials) := checked.value;
    var reader := new HandshakeReader(socket);
    r := Dialogue(reader, credentials, target, Received(socket.events));
    reader.Release();
  }

  /** What the proxy is asked for is the destination the caller named. */
  lemma RequestNamesTheTarget(host: string, port: int, username: Option<string>, password: Option<string>)
    requires Preflight(host, port, username, password).Ok?
    ensures var request := Request(Preflight(host, port, username, password).value.0);
            request[..3] == [VERSION, CMD_CONNECT, 0]
            && TargetEncoding.DecodeTarget(request[3..])
            == Some(TargetEncoding.Target(
                      TargetEncoding.AddressOf(TargetEncoding.Endpoint.ParseProxyHost(host).value), port, []))
  {
    var target := Preflight(host, port, username, password).value.0;
    TargetEncoding.TargetRoundTrip(host, port, []);
    assert target + [] == target && Request(target)[3..] == target;
  }
}
