/** The handshake of one client: negotiate, authenticate, handle, as a function of input and environment. */
module Handshake {
  import opened Wire
  import opened ServerCodecs
  import opened Errors
  import opened FramedStream

  // ---------- what the environment decides ----------

  /** A broken send may still have put some bytes on the wire. */
  datatype SendOutcome = Delivered | Broken(partial: nat, kind: IoKind)

  /** The errors that establishing an upstream connection can end with. */
  type ConnectError = e: Socks5Error | e.TargetConnectionFailed? || e.DnsResolutionFailed? || e.Timeout?
    witness Timeout

  datatype Upstream = Connected(localAddr: Option<SocketAddr>) | Unreachable(error: ConnectError)

  datatype Listening = BindFails(kind: IoKind) | NoLocalAddr(kind: IoKind) | ListensOn(addr: SocketAddr)

  datatype Incoming = Accepted(peer: SocketAddr) | AcceptFails(kind: IoKind) | AcceptTimesOut

  /** Configuration and environment of one connection; `sends(k)` is the fate of the k-th send. */
  datatype World = World(
    allowNoAuth: bool,
    authenticate: (Text, Text) -> Option<AuthError>,
    connect: Address -> Upstream,
    listen: Listening,
    accept: Incoming,
    sends: nat -> SendOutcome
  )

  // ---------- the connection ----------

  datatype Sent = Sent(message: ServerMessage, delivered: bool)

  /** One connection: input still to come, frames and messages taken from it, messages and bytes written. */
  datatype Conn = Conn(
    input: Input,
    frames: seq<seq<byte>>,
    got: seq<ClientMessage>,
    sent: seq<Sent>,
    written: seq<byte>,
    shut: bool
  )

  datatype Status = Ready | Tunnelled | Closed(error: Socks5Error)

  function Fresh(input: Input): Conn {
    Conn(input, [], [], [], [], false)
  }

  function RecvStep(ph: Phase, c: Conn): (res: (Received, Conn))
    ensures res.0.Got? ==> OfPhase(ph, res.0.message)
  {
    var (r, j) := Recv(ph, c.input);
    match r
    case Got(m, n) =>
      RecvSeesWholeStream(ph, c.input);
      (r, c.(input := j, frames := c.frames + [Pending(c.input)[..n]], got := c.got + [m]))
    case Failed(_) => (r, c.(input := j))
  }

  function SendStep(m: ServerMessage, c: Conn, w: World): (Option<Socks5Error>, Conn) {
    var bytes := Encoded(m);
    match w.sends(|c.sent|)
    case Delivered =>
      (None, c.(sent := c.sent + [Sent(m, true)], written := c.written + bytes))
    case Broken(k, kind) =>
      (Some(Io(kind)), c.(sent := c.sent + [Sent(m, false)], written := c.written + bytes[..Min(k, |bytes|)]))
  }

  /** The last message is sent as far as possible, then the write side is shut down in any case. */
  function SendAndShutdown(m: ServerMessage, c: Conn, w: World): Conn {
    SendStep(m, c, w).1.(shut := true)
  }

  function Negotiate(c: Conn, w: World): (Status, Conn) {
    var (r, c1) := RecvStep(Greeting, c);
    match r
    case Failed(e) => (Closed(e), c1)
    case Got(m, _) =>
      if UsernamePassword in m.methods then
        var (e, c2) := SendStep(ServerGreeting(UsernamePassword), c1, w);
        if e.Some? then (Closed(e.value), c2) else Authenticate(c2, w)
      else if w.allowNoAuth && NoAuthenticationRequired in m.methods then
        var (e, c2) := SendStep(ServerGreeting(NoAuthenticationRequired), c1, w);
        if e.Some? then (Closed(e.value), c2) else (Ready, c2)
      else
        (Closed(NoAcceptableMethod), SendAndShutdown(ServerGreeting(NoAcceptableMethods), c1, w))
  }

  function Authenticate(c: Conn, w: World): (Status, Conn) {
    var (r, c1) := RecvStep(Authentication, c);
    match r
    case Failed(e) => (Closed(e), c1)
    case Got(m, _) =>
      match w.authenticate(m.username, m.password)
      case None =>
        var (e, c2) := SendStep(AuthResponse(Success), c1, w);
        if e.Some? then (Closed(e.value), c2) else (Ready, c2)
      case Some(reason) =>
        (Closed(AuthenticationFailed(reason)), SendAndShutdown(AuthResponse(Failure), c1, w))
  }

  function Handle(c: Conn, w: World): (Status, Conn) {
    var (r, c1) := RecvStep(Request, c);
    match r
    case Failed(e) => (Closed(e), c1)
    case Got(m, _) =>
      match m.command
      case Connect => HandleConnect(m.dstAddress, c1, w)
      case Bind => HandleBind(c1, w)
      case UdpAssociate =>
        (Closed(CommandNotSupportedError),
         SendAndShutdown(ServerResponse(CommandNotSupported, UNSPECIFIED_ADDRESS), c1, w))
  }

  function HandleConnect(dst: Address, c: Conn, w: World): (Status, Conn) {
    match w.connect(dst)
    case Unreachable(e) => SendErrorReply(e, c, w)
    case Connected(local) =>
      var bnd := if local.Some? then local.value else UNSPECIFIED_ADDRESS;
      var (e, c1) := SendStep(ServerResponse(Succeeded, bnd), c, w);
      if e.Some? then (Closed(e.value), c1) else (Tunnelled, c1)
  }

  function HandleBind(c: Conn, w: World): (Status, Conn) {
    match w.listen
    case BindFails(k) => SendErrorReply(Io(k), c, w)
    case NoLocalAddr(k) => SendErrorReply(Io(k), c, w)
    case ListensOn(addr) =>
      var (e, c1) := SendStep(ServerResponse(Succeeded, addr), c, w);
      if e.Some? then (Closed(e.value), c1) else AwaitIncoming(c1, w)
  }

  /** The second half of BIND: one peer is accepted within the time limit and announced. */
  function AwaitIncoming(c: Conn, w: World): (Status, Conn) {
    match w.accept
    case AcceptFails(k) => SendErrorReply(Io(k), c, w)
    case AcceptTimesOut => SendErrorReply(Timeout, c, w)
    case Accepted(peer) =>
      var (e, c1) := SendStep(ServerResponse(Succeeded, peer), c, w);
      if e.Some? then (Closed(e.value), c1) else (Tunnelled, c1)
  }

  function SendErrorReply(e: Socks5Error, c: Conn, w: World): (Status, Conn) {
    (Closed(e), SendAndShutdown(ServerResponse(ToReply(e), UNSPECIFIED_ADDRESS), c, w))
  }

  /** The whole handshake; after `Tunnelled`, the relay reads the chunks left in the input. */
  function Serve(input: Input, w: World): (Status, Conn) {
    var (s, c) := Negotiate(Fresh(input), w);
    if s.Ready? then Handle(c, w) else (s, c)
  }
}
