/** Who gets a tunnel, and which method is selected. */
module Access {
  import opened Wire
  import opened ServerCodecs
  import opened CodecLaws
  import opened FramedStream
  import opened Handshake
  import opened Intake

  // ---------- runs only add ----------

  ghost predicate Extends(c: Conn, d: Conn) {
    c.sent <= d.sent && c.frames <= d.frames && c.got <= d.got
  }

  lemma AuthenticateExtends(c: Conn, w: World)
    ensures Extends(c, Authenticate(c, w).1)
  {
  }

  lemma ConnectExtends(dst: Address, c: Conn, w: World)
    ensures Extends(c, HandleConnect(dst, c, w).1)
  {
  }

  lemma BindExtends(c: Conn, w: World)
    ensures Extends(c, HandleBind(c, w).1)
  {
  }

  lemma HandleExtends(c: Conn, w: World)
    ensures Extends(c, Handle(c, w).1)
  {
    var (r, c1) := RecvStep(Request, c);
    if r.Got? {
      ConnectExtends(r.message.dstAddress, c1, w);
      BindExtends(c1, w);
    }
  }

  // ---------- method selection, in terms of the bytes the client sent ----------

  /** The METHODS field of the client's first frame. */
  function MethodsField(c: Conn): seq<byte>
    requires c.frames != [] && |c.frames[0]| >= 2
  {
    c.frames[0][2..]
  }

  function Selection(allowNoAuth: bool, raw: seq<byte>): AuthMethod {
    if 0x02 in raw then UsernamePassword
    else if allowNoAuth && 0x00 in raw then NoAuthenticationRequired
    else NoAcceptableMethods
  }

  /** The first server message, sent in every run that receives a greeting, is the selection from the offered bytes:
      username and password if offered, else no authentication if offered and allowed, else refusal. */
  lemma SelectionFromOfferedBytes(chunks: seq<Chunk>, end: StreamEnd, w: World)
    ensures var c := Serve(Input([], chunks, end), w).1;
            && (c.sent != [] <==> c.got != [])
            && (c.sent != [] ==>
              && c.frames != [] && |c.frames[0]| >= 2
              && c.sent[0].message == ServerGreeting(Selection(w.allowNoAuth, MethodsField(c))))
  {
    var i := Input([], chunks, end);
    var c := Serve(i, w).1;
    ServeIntake(i, w);
    NegotiateSelects(i, w);
    var (s, d) := Negotiate(Fresh(i), w);
    HandleExtends(d, w);
    if c.sent != [] {
      assert d.sent != [] && c.sent[0] == d.sent[0] && c.got[0] == d.got[0];
      GreetingFrame(c.frames[0], c.got[0]);
      OfferedIffByteOffered(MethodsField(c), UsernamePassword);
      OfferedIffByteOffered(MethodsField(c), NoAuthenticationRequired);
    }
  }

  lemma GreetingFrame(f: seq<byte>, m: ClientMessage)
    requires Parse(Greeting, f) == Frame(m, |f|)
    ensures |f| >= 2 && m == ClientGreeting(KnownMethods(f[2..]))
  {
    assert f[2..2 + f[1] as int] == f[2..];
  }

  lemma NegotiateSelects(i: Input, w: World)
    ensures var (s, c) := Negotiate(Fresh(i), w);
            && (s.Ready? ==> c.sent != [])
            && (c.sent == [] ==> s.Closed? && c.got == [])
            && (c.sent != [] ==>
                  && c.got != [] && c.got[0].ClientGreeting?
                  && c.sent[0].message == ServerGreeting(
                       if UsernamePassword in c.got[0].methods then UsernamePassword
                       else if w.allowNoAuth && NoAuthenticationRequired in c.got[0].methods
                       then NoAuthenticationRequired else NoAcceptableMethods))
  {
    var (r, c1) := RecvStep(Greeting, Fresh(i));
    if r.Got? && UsernamePassword in r.message.methods {
      var (e, c2) := SendStep(ServerGreeting(UsernamePassword), c1, w);
      AuthenticateExtends(c2, w);
    }
  }

  // ---------- access control ----------

  /** The client proved who it is. */
  ghost predicate LoggedIn(c: Conn, w: World) {
    && |c.got| >= 2 && c.got[0].ClientGreeting? && UsernamePassword in c.got[0].methods
    && c.got[1].AuthRequest?
    && w.authenticate(c.got[1].username, c.got[1].password) == None
    && |c.sent| >= 2
    && c.sent[..2] == [Sent(ServerGreeting(UsernamePassword), true), Sent(AuthResponse(Success), true)]
  }

  /** The configuration lets the client in without proof, and it asked for nothing better. */
  ghost predicate LetIn(c: Conn, w: World) {
    && w.allowNoAuth
    && |c.got| >= 1 && c.got[0].ClientGreeting?
    && NoAuthenticationRequired in c.got[0].methods && UsernamePassword !in c.got[0].methods
    && |c.sent| >= 1 && c.sent[0] == Sent(ServerGreeting(NoAuthenticationRequired), true)
  }

  lemma NegotiateAdmits(i: Input, w: World)
    ensures var (s, c) := Negotiate(Fresh(i), w); s.Ready? ==> LoggedIn(c, w) || LetIn(c, w)
  {
  }

  /** A tunnel is returned only to a client that logged in or that the configuration lets in. */
  lemma TunnelOnlyForAdmitted(i: Input, w: World)
    ensures var (s, c) := Serve(i, w); s.Tunnelled? ==> LoggedIn(c, w) || LetIn(c, w)
  {
    NegotiateAdmits(i, w);
    var (s, c) := Negotiate(Fresh(i), w);
    if s.Ready? {
      HandleExtends(c, w);
      var d := Handle(c, w).1;
      if LoggedIn(c, w) {
        assert d.sent[..2] == c.sent[..2];
      }
    }
  }
}
