/** Properties of whole handshakes. */
module HandshakeLaws {
  import opened Wire
  import opened ServerCodecs
  import opened Errors
  import opened FramedStream
  import opened Handshake

  // ---------- independence from chunking ----------

  /** Equal but for how the bytes still to come are split between buffer and chunks. */
  ghost predicate Alike(c: Conn, d: Conn) {
    && Pending(c.input) == Pending(d.input) && c.input.end == d.input.end
    && c.(input := d.input) == d
  }

  const OverfullStatus: Status := Closed(Protocol(FrameTooLarge))

  /** Both runs end alike, or one of them was refused for an overfull buffer. */
  ghost predicate SameUnlessOverfull(x: (Status, Conn), y: (Status, Conn)) {
    || x.0 == OverfullStatus
    || y.0 == OverfullStatus
    || (x.0 == y.0 && Alike(x.1, y.1))
  }

  lemma RecvAlike(ph: Phase, c: Conn, d: Conn)
    requires Alike(c, d)
    ensures var (r, c1) := RecvStep(ph, c); var (q, d1) := RecvStep(ph, d);
            r == TooLarge || q == TooLarge || (r == q && Alike(c1, d1))
  {
    RecvSeesWholeStream(ph, c.input);
    RecvSeesWholeStream(ph, d.input);
  }

  lemma AuthenticateAlike(c: Conn, d: Conn, w: World)
    requires Alike(c, d)
    ensures SameUnlessOverfull(Authenticate(c, w), Authenticate(d, w))
  {
    RecvAlike(Authentication, c, d);
  }

  lemma NegotiateAlike(c: Conn, d: Conn, w: World)
    requires Alike(c, d)
    ensures SameUnlessOverfull(Negotiate(c, w), Negotiate(d, w))
  {
    RecvAlike(Greeting, c, d);
    var (r, c1) := RecvStep(Greeting, c);
    var (q, d1) := RecvStep(Greeting, d);
    if r != TooLarge && q != TooLarge && r.Got? && UsernamePassword in r.message.methods {
      var (e, c2) := SendStep(ServerGreeting(UsernamePassword), c1, w);
      var (f, d2) := SendStep(ServerGreeting(UsernamePassword), d1, w);
      assert e == f && Alike(c2, d2);
      AuthenticateAlike(c2, d2, w);
    }
  }

  lemma SendAlike(m: ServerMessage, c: Conn, d: Conn, w: World)
    requires Alike(c, d)
    ensures SendStep(m, c, w).0 == SendStep(m, d, w).0
    ensures Alike(SendStep(m, c, w).1, SendStep(m, d, w).1)
    ensures Alike(SendAndShutdown(m, c, w), SendAndShutdown(m, d, w))
  {
  }

  lemma HandleConnectAlike(dst: Address, c: Conn, d: Conn, w: World)
    requires Alike(c, d)
    ensures SameUnlessOverfull(HandleConnect(dst, c, w), HandleConnect(dst, d, w))
  {
    match w.connect(dst) {
      case Unreachable(e) => SendAlike(ServerResponse(ToReply(e), UNSPECIFIED_ADDRESS), c, d, w);
      case Connected(local) =>
        SendAlike(ServerResponse(Succeeded, if local.Some? then local.value else UNSPECIFIED_ADDRESS), c, d, w);
    }
  }

  lemma HandleBindAlike(c: Conn, d: Conn, w: World)
    requires Alike(c, d)
    ensures SameUnlessOverfull(HandleBind(c, w), HandleBind(d, w))
  {
    match w.listen {
      case BindFails(k) => SendAlike(ServerResponse(ToReply(Io(k)), UNSPECIFIED_ADDRESS), c, d, w);
      case NoLocalAddr(k) => SendAlike(ServerResponse(ToReply(Io(k)), UNSPECIFIED_ADDRESS), c, d, w);
      case ListensOn(addr) =>
        var first := ServerResponse(Succeeded, addr);
        SendAlike(first, c, d, w);
        var c1, d1 := SendStep(first, c, w).1, SendStep(first, d, w).1;
        match w.accept {
          case AcceptFails(k) => SendAlike(ServerResponse(ToReply(Io(k)), UNSPECIFIED_ADDRESS), c1, d1, w);
          case AcceptTimesOut => SendAlike(ServerResponse(ToReply(Timeout), UNSPECIFIED_ADDRESS), c1, d1, w);
          case Accepted(peer) => SendAlike(ServerResponse(Succeeded, peer), c1, d1, w);
        }
    }
  }

  lemma HandleAlike(c: Conn, d: Conn, w: World)
    requires Alike(c, d)
    ensures SameUnlessOverfull(Handle(c, w), Handle(d, w))
  {
    RecvAlike(Request, c, d);
    var (r, c1) := RecvStep(Request, c);
    var (q, d1) := RecvStep(Request, d);
    if r != TooLarge && q != TooLarge && r.Got? {
      match r.message.command {
        case Connect => HandleConnectAlike(r.message.dstAddress, c1, d1, w);
        case Bind => HandleBindAlike(c1, d1, w);
        case UdpAssociate => SendAlike(ServerResponse(CommandNotSupported, UNSPECIFIED_ADDRESS), c1, d1, w);
      }
    }
  }

  /** Two ways of splitting the same client bytes into reads give the same messages, the same server bytes,
      the same outcome and the same stream offset, unless a read overfills the buffer. */
  lemma ServeChunkingIndependent(x: Input, y: Input, w: World)
    requires Pending(x) == Pending(y) && x.end == y.end
    ensures SameUnlessOverfull(Serve(x, w), Serve(y, w))
  {
    assert Alike(Fresh(x), Fresh(y));
    NegotiateAlike(Fresh(x), Fresh(y), w);
    var (s, c) := Negotiate(Fresh(x), w);
    var (t, d) := Negotiate(Fresh(y), w);
    if s.Ready? && t.Ready? {
      HandleAlike(c, d, w);
    }
  }

  // ---------- the exact condition ----------

  lemma RecvStepShort(ph: Phase, c: Conn)
    requires |Pending(c.input)| <= MAX_GREETING_FRAME_SIZE
    ensures RecvStep(ph, c).0 != TooLarge
    ensures |Pending(RecvStep(ph, c).1.input)| <= MAX_GREETING_FRAME_SIZE
  {
    ShortStreamNeverTooLarge(ph, c.input);
    RecvSeesWholeStream(ph, c.input);
  }

  lemma HandleShort(c: Conn, w: World)
    requires |Pending(c.input)| <= MAX_GREETING_FRAME_SIZE
    ensures Handle(c, w).0 != OverfullStatus
  {
    RecvStepShort(Request, c);
  }

  lemma NegotiateShort(c: Conn, w: World)
    requires |Pending(c.input)| <= MAX_GREETING_FRAME_SIZE
    ensures Negotiate(c, w).0 != OverfullStatus
    ensures |Pending(Negotiate(c, w).1.input)| <= MAX_GREETING_FRAME_SIZE
  {
    RecvStepShort(Greeting, c);
    var (r, c1) := RecvStep(Greeting, c);
    if r.Got? && UsernamePassword in r.message.methods {
      var (e, c2) := SendStep(ServerGreeting(UsernamePassword), c1, w);
      RecvStepShort(Authentication, c2);
    }
  }

  lemma ServeShort(x: Input, w: World)
    requires |Pending(x)| <= MAX_GREETING_FRAME_SIZE
    ensures Serve(x, w).0 != OverfullStatus
  {
    NegotiateShort(Fresh(x), w);
    var (s, c) := Negotiate(Fresh(x), w);
    if s.Ready? {
      HandleShort(c, w);
    }
  }

  ghost predicate SameRun(x: (Status, Conn), y: (Status, Conn)) {
    x.0 == y.0 && Alike(x.1, y.1)
  }

  /** A whole handshake is independent of chunking exactly when the client's bytes fit into a greeting frame:
      a client that sends more ahead of time may or may not be refused, depending on how its bytes are read. */
  lemma ServeChunkingIndependentIff(s: seq<byte>, end: StreamEnd, w: World)
    ensures (forall c, d :: Splits(c, s) && Splits(d, s) ==>
               SameRun(Serve(Input([], c, end), w), Serve(Input([], d, end), w)))
            <==> |s| <= MAX_GREETING_FRAME_SIZE
  {
    if |s| <= MAX_GREETING_FRAME_SIZE {
      forall c, d | Splits(c, s) && Splits(d, s)
        ensures SameRun(Serve(Input([], c, end), w), Serve(Input([], d, end), w))
      {
        var x, y := Input([], c, end), Input([], d, end);
        assert Pending(x) == s == Pending(y);
        ServeShort(x, w);
        ServeShort(y, w);
        ServeChunkingIndependent(x, y, w);
      }
    } else {
      FlatSingle(s);
      FlatBytewise(s);
      assert Splits([s], s) && Splits(Bytewise(s), s);
      OverfullGreetingDiffers(s, end, w);
    }
  }

  lemma OverfullGreetingDiffers(s: Chunk, end: StreamEnd, w: World)
    requires |s| > MAX_GREETING_FRAME_SIZE
    ensures !SameRun(Serve(Input([], [s], end), w), Serve(Input([], Bytewise(s), end), w))
  {
    AllAtOnceTooLarge(Greeting, s, end);
    BytewiseNeverTooLarge(Greeting, [], s, end);
    GreetingDecides(Input([], [s], end), w);
    GreetingDecides(Input([], Bytewise(s), end), w);
  }

  /** A greeting that is not received ends the run at once; one that is received is never forgotten. */
  lemma GreetingDecides(i: Input, w: World)
    ensures match Recv(Greeting, i).0
            case Failed(e) => Serve(i, w).0 == Closed(e) && Serve(i, w).1.got == []
            case Got(_, _) => Serve(i, w).1.got != []
  {
    var (r, c1) := RecvStep(Greeting, Fresh(i));
    if r.Got? {
      NegotiateKeeps(Fresh(i), w);
      HandleKeeps(Negotiate(Fresh(i), w).1, w);
    }
  }

  lemma NegotiateKeeps(c: Conn, w: World)
    ensures |RecvStep(Greeting, c).1.got| <= |Negotiate(c, w).1.got|
  {
    var (r, c1) := RecvStep(Greeting, c);
    if r.Got? && UsernamePassword in r.message.methods {
      var (e, c2) := SendStep(ServerGreeting(UsernamePassword), c1, w);
      assert c2.got == c1.got;
      assert |Authenticate(c2, w).1.got| >= |c2.got|;
    }
  }

  lemma HandleKeeps(c: Conn, w: World)
    ensures |c.got| <= |Handle(c, w).1.got|
  {
    var (r, c1) := RecvStep(Request, c);
    if r.Got? && r.message.command.Bind? {
      assert HandleBind(c1, w).1.got == c1.got;
    }
  }
}
