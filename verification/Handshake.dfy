/** The bounded reader both proxy handshakes take their bytes from. */
module Handshake {
  import opened Prelude
  import opened Utf8

  datatype ErrorCode =
    | ProtocolError | TimedOut | AuthFailed | ProxyFailure | Forbidden | Unreachable | Refused
    | UnsupportedOperation | PasswordMissing | InvalidProxyConfig

  /**
   * What a socket will tell its listeners, in order. The last three are lasting conditions: a
   * peer that closed, a socket that failed, a deadline that has passed.
   */
  datatype Event = Data(bytes: seq<Byte>) | Closed | Failed | Expired

  /** The bytes that still arrive. */
  function Received(events: seq<Event>): seq<Byte> {
    if events == [] || !events[0].Data? then [] else events[0].bytes + Received(events[1..])
  }

  /** How the stream stops; one that just falls silent runs into the deadline. */
  function Fate(events: seq<Event>): Event {
    if events == [] then Expired else if events[0].Data? then Fate(events[1..]) else events[0]
  }

  /** The error of a reader that needs more bytes than arrive. */
  function FateCode(events: seq<Event>): ErrorCode {
    if Fate(events).Expired? then TimedOut else ProtocolError
  }

  function DataOf(chunks: seq<seq<Byte>>): seq<Event> {
    seq(|chunks|, i requires 0 <= i < |chunks| => Data(chunks[i]))
  }

  /**
   * A stream's bytes are those of its chunks, and what it runs into is what ends it: silence is the
   * deadline, and a peer that closed or a socket that failed is an error of the protocol.
   */
  lemma {:induction false} StreamIs(chunks: seq<seq<Byte>>, last: Event, more: seq<Event>)
    requires !last.Data?
    ensures Received(DataOf(chunks) + [last] + more) == Flatten(chunks) == Received(DataOf(chunks))
    ensures FateCode(DataOf(chunks) + [last] + more) == if last.Expired? then TimedOut else ProtocolError
    ensures FateCode(DataOf(chunks)) == TimedOut
  {
    if chunks == [] {
      assert DataOf(chunks) + [last] + more == [last] + more;
    } else {
      var rest := DataOf(chunks[1..]);
      StreamIs(chunks[1..], last, more);
      HeadAndTail(chunks);
      FlattenFirst(chunks[0], chunks[1..]);
      assert DataOf(chunks) == [Data(chunks[0])] + rest;
      assert DataOf(chunks) + [last] + more == [Data(chunks[0])] + (rest + [last] + more);
      ReceivedFirst(chunks[0], rest);
      ReceivedFirst(chunks[0], rest + [last] + more);
    }
  }

  lemma ReceivedFirst(bytes: seq<Byte>, events: seq<Event>)
    ensures Received([Data(bytes)] + events) == bytes + Received(events)
    ensures Fate([Data(bytes)] + events) == Fate(events)
  {
    assert ([Data(bytes)] + events)[1..] == events;
  }

  class Socket {
    var events: seq<Event>
    var written: seq<Byte>

    constructor (events: seq<Event>)
      ensures this.events == events && written == []
    {
      this.events, written := events, [];
    }

    method Write(payload: seq<Byte>)
      modifies this`written
      ensures written == old(written) + payload
    {
      written := written + payload;
    }

    method Unshift(bytes: seq<Byte>)
      modifies this`events
      ensures Received(events) == bytes + Received(old(events)) && Fate(events) == Fate(old(events))
    {
      ReceivedFirst(bytes, events);
      events := [Data(bytes)] + events;
    }
  }

  class HandshakeReader {
    const socket: Socket
    var chunks: seq<seq<Byte>>
    var length: nat
    var ended: bool
    var failure: bool

    ghost predicate Valid()
      reads this, socket
    {
      && length == |Flatten(chunks)|
      && (ended ==> socket.events != [] && socket.events[0].Closed?)
      && (failure ==> socket.events != [] && socket.events[0].Failed?)
    }

    /** What is buffered and what still arrives. */
    ghost function Pending(): seq<Byte>
      reads this, socket
    {
      Flatten(chunks) + Received(socket.events)
    }

    constructor (socket: Socket)
      ensures this.socket == socket && Valid() && Pending() == Received(socket.events) && chunks == []
    {
      this.socket := socket;
      chunks, length, ended, failure := [], 0, false, false;
      new;
      assert [] + Received(socket.events) == Received(socket.events);
    }

    method OnData(chunk: seq<Byte>)
      modifies this`chunks, this`length
      ensures Flatten(chunks) == Flatten(old(chunks)) + chunk && length == old(length) + |chunk|
    {
      FlattenSnoc(chunks, chunk);
      chunks := chunks + [chunk];
      length := length + |chunk|;
    }

    method OnEnd()
      modifies this`ended
      ensures ended
    {
      ended := true;
    }

    method OnError()
      modifies this`failure
      ensures failure
    {
      failure := true;
    }

    /** Hand the next event to its listener; a lasting one stays at the head of the stream. */
    method Deliver() returns (expired: bool)
      requires Valid()
      modifies this`chunks, this`length, this`ended, this`failure, socket`events
      ensures Valid() && Pending() == old(Pending()) && Fate(socket.events) == Fate(old(socket.events))
      ensures old(socket.events) != [] && old(socket.events)[0].Data? ==> |socket.events| < |old(socket.events)|
      ensures || |socket.events| < |old(socket.events)|
              || (socket.events == old(socket.events) && (expired || ended || failure))
      ensures expired ==> Fate(socket.events).Expired? && Received(socket.events) == []
    {
      expired := false;
      if socket.events == [] {
        expired := true;
        return;
      }
      match socket.events[0]
      case Data(bytes) =>
        var later := socket.events[1..];
        assert Flatten(chunks) + (bytes + Received(later)) == Flatten(chunks) + bytes + Received(later);
        OnData(bytes);
        socket.events := later;
        ended, failure := false, false;
      case Closed => OnEnd();
      case Failed => OnError();
      case Expired => expired := true;
    }

    /** Sleep until something happens; more than one event may have been delivered on waking. */
    method Wait() returns (expired: bool)
      requires Valid()
      modifies this`chunks, this`length, this`ended, this`failure, socket`events
      ensures Valid() && Pending() == old(Pending()) && Fate(socket.events) == Fate(old(socket.events))
      ensures || |socket.events| < |old(socket.events)|
              || (socket.events == old(socket.events) && (expired || ended || failure))
      ensures expired ==> Fate(socket.events).Expired? && Received(socket.events) == []
    {
      expired := Deliver();
      while *
        invariant Valid() && Pending() == old(Pending()) && Fate(socket.events) == Fate(old(socket.events))
        invariant || |socket.events| < |old(socket.events)|
                  || (socket.events == old(socket.events) && (expired || ended || failure))
        invariant expired ==> Fate(socket.events).Expired? && Received(socket.events) == []
        decreases |socket.events|
      {
        if expired || socket.events == [] || !socket.events[0].Data? {
          break;
        }
        expired := Deliver();
      }
    }

    /**
     * Exactly the next `count` bytes, however they are cut into chunks; or, when fewer arrive,
     * the error of the way the stream stops, with nothing consumed.
     */
    method ReadExactly(count: nat) returns (r: Result<seq<Byte>, ErrorCode>)
      requires Valid()
      modifies this`chunks, this`length, this`ended, this`failure, socket`events
      ensures Valid() && Fate(socket.events) == Fate(old(socket.events))
      ensures r.Ok? <==> count <= |old(Pending())|
      ensures r.Ok? ==> r.value == old(Pending())[..count] && Pending() == old(Pending())[count..]
      ensures r.Err? ==> r.error == FateCode(old(socket.events)) && Pending() == old(Pending())
    {
      var expired := false;
      while length < count
        invariant Valid() && Pending() == old(Pending()) && Fate(socket.events) == Fate(old(socket.events))
        invariant expired ==> Fate(socket.events).Expired? && Received(socket.events) == []
        decreases |socket.events|, if expired || ended || failure then 0 else 1
      {
        if failure {
          return Err(ProtocolError);
        }
        if ended {
          return Err(ProtocolError);
        }
        if expired {
          return Err(TimedOut);
        }
        expired := Wait();
      }
      var taken := Take(count);
      r := Ok(taken);
    }

    /** Merge the chunks, hand out the front and keep the rest as one chunk. */
    method Take(count: nat) returns (taken: seq<Byte>)
      requires Valid() && count <= length
      modifies this`chunks, this`length
      ensures Valid() && taken == old(Pending())[..count] && Pending() == old(Pending())[count..]
    {
      var merged := Flatten(chunks);
      taken := merged[..count];
      var rest := merged[count..];
      assert merged + Received(socket.events) == taken + (rest + Received(socket.events));
      chunks := if rest != [] then [rest] else [];
      length := |rest|;
      FlattenSnoc([], rest);
      assert [] + [rest] == [rest];
    }

    /** Give what is buffered back to the socket. */
    method Release()
      requires Valid()
      modifies this`chunks, this`length, this`ended, this`failure, socket`events
      ensures Received(socket.events) == old(Pending()) && Fate(socket.events) == Fate(old(socket.events))
      ensures chunks == [] && length == 0
    {
      if length > 0 {
        socket.Unshift(Flatten(chunks));
        chunks, length := [], 0;
      } else {
        assert Flatten(chunks) == [];
        assert [] + Received(socket.events) == Received(socket.events);
        chunks := [];
      }
    }
  }
}
