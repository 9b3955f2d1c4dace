/** The connection handler as it runs: one framed stream whose codec is swapped between phases. */
module Socks5Handling {
  import opened Wire
  import opened ServerCodecs
  import opened CodecLaws
  import opened Errors
  import opened FramedStream
  import opened Handshake

  class Socks5Handler {
    const readBuf: BytesMut
    const end: StreamEnd
    const world: World
    var codec: Phase
    var chunks: seq<Chunk>
    var written: seq<byte>
    var sends: nat
    var shut: bool
    ghost var frames: seq<seq<byte>>
    ghost var got: seq<ClientMessage>
    ghost var sent: seq<Sent>

    ghost function View(): Conn
      reads this, readBuf
    {
      Conn(Input(readBuf.bytes, chunks, end), frames, got, sent, written, shut)
    }

    ghost predicate Valid()
      reads this
    {
      sends == |sent|
    }

    constructor (incoming: seq<Chunk>, end: StreamEnd, world: World)
      ensures Valid() && fresh(readBuf)
      ensures this.world == world && codec == Greeting
      ensures View() == Fresh(Input([], incoming, end))
    {
      readBuf := new BytesMut();
      this.end, this.world := end, world;
      codec, chunks, written, sends, shut := Greeting, incoming, [], 0, false;
      frames, got, sent := [], [], [];
    }

    /** The codec is replaced; buffers and socket stay as they are. */
    method IntoState(next: Phase)
      requires Valid()
      modifies this`codec
      ensures Valid() && codec == next && View() == old(View())
    {
      codec := next;
    }

    /** Decodes from the read buffer, reading more as long as the frame is incomplete. */
    method Receive() returns (r: Received)
      requires Valid()
      modifies this, readBuf
      ensures Valid() && codec == old(codec)
      ensures (r, View()) == RecvStep(codec, old(View()))
    {
      ghost var start := Input(readBuf.bytes, chunks, end);
      RecvSeesWholeStream(codec, start);
      while true
        invariant Valid() && codec == old(codec)
        invariant Recv(codec, Input(readBuf.bytes, chunks, end)) == Recv(codec, start)
        invariant View() == old(View()).(input := Input(readBuf.bytes, chunks, end))
        decreases |chunks|
      {
        var before := |readBuf.bytes|;
        LimitsExact(codec, readBuf.bytes);
        var d := Decode(codec, readBuf);
        match d {
          case Err(e) =>
            return Failed(Protocol(e));
          case Ok(Some(m)) =>
            r := Got(m, before - |readBuf.bytes|);
            assert Recv(codec, start) == (r, Input(readBuf.bytes, chunks, end));
            frames, got := frames + [Pending(start)[..r.used]], got + [m];
            return;
          case Ok(None) =>
            if chunks == [] {
              return Failed(AtEnd(readBuf.bytes, end));
            }
            readBuf.PutSlice(chunks[0]);
            chunks := chunks[1..];
        }
      }
    }

    /** Encodes a message and writes it out; a broken send leaves a part of it on the wire. */
    method Send(m: ServerMessage) returns (failure: Option<Socks5Error>)
      requires Valid()
      modifies this
      ensures Valid() && codec == old(codec)
      ensures (failure, View()) == SendStep(m, old(View()), world)
    {
      var buf := new BytesMut();
      Encode(m, buf);
      assert buf.bytes == Encoded(m);
      match world.sends(sends) {
        case Delivered =>
          failure := None;
          written := written + buf.bytes;
        case Broken(k, kind) =>
          failure := Some(Io(kind));
          written := written + buf.bytes[..Min(k, |buf.bytes|)];
      }
      sends := sends + 1;
      sent := sent + [Sent(m, failure.None?)];
    }

    /** The send may fail; the write side is shut down all the same. */
    method SendAndClose(m: ServerMessage)
      requires Valid()
      modifies this
      ensures Valid() && View() == SendAndShutdown(m, old(View()), world)
    {
      var ignored := Send(m);
      shut := true;
    }

    method NegotiateMethod() returns (s: Status)
      requires Valid() && codec == Greeting
      modifies this, readBuf
      ensures Valid() && (s.Ready? ==> codec == Request)
      ensures (s, View()) == Negotiate(old(View()), world)
    {
      var r := Receive();
      if r.Failed? {
        return Closed(r.error);
      }
      var methods := r.message.methods;
      if UsernamePassword in methods {
        var failure := Send(ServerGreeting(UsernamePassword));
        if failure.Some? {
          return Closed(failure.value);
        }
        IntoState(Authentication);
        s := AuthenticateClient();
        return;
      }
      if world.allowNoAuth && NoAuthenticationRequired in methods {
        var failure := Send(ServerGreeting(NoAuthenticationRequired));
        if failure.Some? {
          return Closed(failure.value);
        }
        IntoState(Request);
        return Ready;
      }
      SendAndClose(ServerGreeting(NoAcceptableMethods));
      return Closed(NoAcceptableMethod);
    }

    method AuthenticateClient() returns (s: Status)
      requires Valid() && codec == Authentication
      modifies this, readBuf
      ensures Valid() && (s.Ready? ==> codec == Request)
      ensures (s, View()) == Authenticate(old(View()), world)
    {
      var r := Receive();
      if r.Failed? {
        return Closed(r.error);
      }
      match world.authenticate(r.message.username, r.message.password) {
        case None =>
          var failure := Send(AuthResponse(Success));
          if failure.Some? {
            return Closed(failure.value);
          }
          IntoState(Request);
          return Ready;
        case Some(reason) =>
          SendAndClose(AuthResponse(Failure));
          return Closed(AuthenticationFailed(reason));
      }
    }

    method HandleRequest() returns (s: Status)
      requires Valid() && codec == Request
      modifies this, readBuf
      ensures Valid() && (s, View()) == Handle(old(View()), world)
    {
      var r := Receive();
      if r.Failed? {
        return Closed(r.error);
      }
      match r.message.command {
        case Connect => s := ConnectCommand(r.message.dstAddress);
        case Bind => s := BindCommand();
        case UdpAssociate =>
          SendAndClose(ServerResponse(CommandNotSupported, UNSPECIFIED_ADDRESS));
          s := Closed(CommandNotSupportedError);
      }
    }

    method ConnectCommand(dst: Address) returns (s: Status)
      requires Valid()
      modifies this
      ensures Valid() && (s, View()) == HandleConnect(dst, old(View()), world)
    {
      match world.connect(dst) {
        case Unreachable(e) =>
          s := ErrorReply(e);
        case Connected(local) =>
          var bnd := if local.Some? then local.value else UNSPECIFIED_ADDRESS;
          var failure := Send(ServerResponse(Succeeded, bnd));
          s := if failure.Some? then Closed(failure.value) else Tunnelled;
      }
    }

    method BindCommand() returns (s: Status)
      requires Valid()
      modifies this
      ensures Valid() && (s, View()) == HandleBind(old(View()), world)
    {
      match world.listen {
        case BindFails(k) => s := ErrorReply(Io(k));
        case NoLocalAddr(k) => s := ErrorReply(Io(k));
        case ListensOn(addr) =>
          var failure := Send(ServerResponse(Succeeded, addr));
          if failure.Some? {
            return Closed(failure.value);
          }
          match world.accept {
            case AcceptFails(k) => s := ErrorReply(Io(k));
            case AcceptTimesOut => s := ErrorReply(Timeout);
            case Accepted(peer) =>
              failure := Send(ServerResponse(Succeeded, peer));
              s := if failure.Some? then Closed(failure.value) else Tunnelled;
          }
      }
    }

    method ErrorReply(e: Socks5Error) returns (s: Status)
      requires Valid()
      modifies this
      ensures Valid() && (s, View()) == SendErrorReply(e, old(View()), world)
    {
      SendAndClose(ServerResponse(ToReply(e), UNSPECIFIED_ADDRESS));
      s := Closed(e);
    }
  }

  /** One client from accept to tunnel or closing reply; what the relay gets is the unread part of the socket. */
  method ServeClient(incoming: seq<Chunk>, end: StreamEnd, world: World)
    returns (s: Status, written: seq<byte>, downstream: seq<Chunk>, shut: bool)
    ensures var (t, c) := Serve(Input([], incoming, end), world);
            s == t && written == c.written && downstream == c.input.chunks && shut == c.shut
  {
    var h := new Socks5Handler(incoming, end, world);
    s := h.NegotiateMethod();
    if s.Ready? {
      s := h.HandleRequest();
    }
    written, downstream, shut := h.written, h.chunks, h.shut;
  }
}
