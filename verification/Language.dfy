/** The language of server transcripts is exactly the automaton's. */
module Language {
  import opened Wire
  import opened ServerCodecs
  import opened CodecLaws
  import opened Errors
  import opened FramedStream
  import opened Handshake
  import opened Transcripts
  import opened Intake

  // ---------- the shape of legal transcripts ----------

  function JudgedFrom(q: Judge, t: seq<Sent>): Judge
    decreases |t|
  {
    if t == [] then q else JudgedFrom(Rule(q, t[0]), t[1..])
  }

  lemma {:induction false} JudgedFromAppend(q: Judge, t: seq<Sent>, s: Sent)
    ensures JudgedFrom(q, t + [s]) == Rule(JudgedFrom(q, t), s)
    decreases |t|
  {
    if t == [] {
      assert (t + [s])[1..] == [];
    } else {
      assert (t + [s])[1..] == t[1..] + [s];
      JudgedFromAppend(Rule(q, t[0]), t[1..], s);
    }
  }

  lemma {:induction false} JudgedIsFromOpening(t: seq<Sent>)
    ensures Judged(t) == JudgedFrom(Opening, t)
    decreases |t|
  {
    if t != [] {
      var u := t[..|t| - 1];
      JudgedIsFromOpening(u);
      JudgedFromAppend(Opening, u, t[|t| - 1]);
      assert t == u + [t[|t| - 1]];
    }
  }

  lemma {:induction false} NothingAfter(q: Judge, t: seq<Sent>)
    requires q in {SecondReply, Over, Illegal} && JudgedFrom(q, t) != Illegal
    ensures t == []
    decreases |t|
  {
    if t != [] {
      NothingAfter(Illegal, t[1..]);
    }
  }

  ghost predicate LegalReplies(r: seq<Sent>) {
    || r == []
    || (|r| == 1 && Rule(AwaitingRequest, r[0]) != Illegal)
    || (|r| == 2 && Rule(AwaitingRequest, r[0]) == FirstReply && Rule(FirstReply, r[1]) != Illegal)
  }

  lemma RepliesShape(t: seq<Sent>)
    requires JudgedFrom(AwaitingRequest, t) != Illegal
    ensures LegalReplies(t)
  {
    if |t| >= 1 {
      var q := Rule(AwaitingRequest, t[0]);
      if q != FirstReply {
        NothingAfter(q, t[1..]);
      } else if |t| >= 2 {
        assert t[1..][0] == t[1] && t[1..][1..] == t[2..];
        NothingAfter(Rule(FirstReply, t[1]), t[2..]);
      }
    }
  }

  // ---------- an environment that brings a transcript about ----------

  function KindFor(r: Reply): IoKind {
    match r
    case ConnectionRefused => KindConnectionRefused
    case NetworkUnreachable => KindNetworkUnreachable
    case HostUnreachable => KindNotFound
    case _ => KindOther
  }

  function BoundIn(s: Sent): SocketAddr {
    if s.message.ServerResponse? && !s.message.bndAddress.Domain? then s.message.bndAddress else UNSPECIFIED_ADDRESS
  }

  function CodeOf(s: Sent): Reply {
    if s.message.ServerResponse? then s.message.reply else GeneralFailure
  }

  /** The world in which login succeeds iff `login`, requests end in the replies `r`, and sends fare as in `t`. */
  function Obliging(t: seq<Sent>, login: bool, r: seq<Sent>): World {
    World(
      true,
      (u: Text, p: Text) => if login then None else Some(InvalidCredentials),
      (a: Address) =>
        if r != [] && CodeOf(r[0]) == Succeeded then Connected(Some(BoundIn(r[0])))
        else Unreachable(TargetConnectionFailed(KindFor(if r == [] then GeneralFailure else CodeOf(r[0])))),
      ListensOn(if r == [] then UNSPECIFIED_ADDRESS else BoundIn(r[0])),
      if |r| == 2 && CodeOf(r[1]) == Succeeded then Accepted(BoundIn(r[1]))
      else AcceptFails(KindFor(if |r| == 2 then CodeOf(r[1]) else GeneralFailure)),
      (k: nat) => if k < |t| && !t[k].delivered then Broken(0, KindOther) else Delivered
    )
  }

  function CommandFor(r: seq<Sent>): Command {
    if |r| == 2 then Bind
    else if r != [] && CodeOf(r[0]) == CommandNotSupported then UdpAssociate
    else Connect
  }

  function Ask(r: seq<Sent>): seq<Chunk> {
    if r == [] then [] else [PrintRequest(CommandFor(r), UNSPECIFIED_ADDRESS)]
  }

  lemma NothingToReceive(ph: Phase, c: Conn)
    requires c.input == Input([], [], Eof)
    ensures RecvStep(ph, c) == (Failed(Io(KindUnexpectedEof)), c)
  {
    LimitsExact(ph, []);
  }

  lemma AskReceived(c: Conn, r: seq<Sent>)
    requires c.input == Input([], Ask(r), Eof) && r != []
    ensures var (q, d) := RecvStep(Request, c);
            && q.Got? && q.message == ClientRequest(CommandFor(r), UNSPECIFIED_ADDRESS)
            && d.sent == c.sent
  {
    var f := PrintRequest(CommandFor(r), UNSPECIFIED_ADDRESS);
    FlatSingle(f);
    assert Ask(r) == [f] + [];
    assert Prints(Request, f, ClientRequest(CommandFor(r), UNSPECIFIED_ADDRESS));
    RecvStepSpoken(Request, [f], [], c, ClientRequest(CommandFor(r), UNSPECIFIED_ADDRESS));
  }

  /** A send in the obliging world fares as the transcript has it. */
  lemma ObligingSend(t: seq<Sent>, login: bool, r: seq<Sent>, c: Conn)
    requires c.sent < t
    ensures var k := |c.sent|; var (e, d) := SendStep(t[k].message, c, Obliging(t, login, r));
            d.sent == c.sent + [t[k]] == t[..k + 1] && (e.None? <==> t[k].delivered) && d.input == c.input
  {
    var k := |c.sent|;
    assert t[..k + 1] == t[..k] + [t[k]];
  }

  /** A request is answered with the replies asked for. */
  lemma RepliesRealised(t: seq<Sent>, login: bool, r: seq<Sent>, c: Conn)
    requires LegalReplies(r) && t == c.sent + r
    requires c.input == Input([], Ask(r), Eof)
    ensures Handle(c, Obliging(t, login, r)).1.sent == t
  {
    var w := Obliging(t, login, r);
    if r == [] {
      NothingToReceive(Request, c);
    } else {
      AskReceived(c, r);
      var (q, d) := RecvStep(Request, c);
      assert d.sent < t && t[|d.sent|] == r[0];
      ObligingSend(t, login, r, d);
      if |r| == 1 {
        OneReply(t, login, r, d);
      } else {
        var (e, d1) := SendStep(r[0].message, d, w);
        assert t[|d1.sent|] == r[1];
        ObligingSend(t, login, r, d1);
        assert r[0].message == ServerResponse(Succeeded, BoundIn(r[0]));
        TwoReplies(t, login, r, d);
      }
    }
  }

  lemma OneReply(t: seq<Sent>, login: bool, r: seq<Sent>, d: Conn)
    requires |r| == 1 && Rule(AwaitingRequest, r[0]) != Illegal
    requires d.sent < t && t == d.sent + r
    ensures var w := Obliging(t, login, r);
            match CommandFor(r)
            case Connect => HandleConnect(UNSPECIFIED_ADDRESS, d, w).1.sent == t
            case UdpAssociate => SendAndShutdown(ServerResponse(CommandNotSupported, UNSPECIFIED_ADDRESS), d, w).sent == t
            case Bind => false
  {
    ObligingSend(t, login, r, d);
    assert t[|d.sent|] == r[0] && t[..|d.sent| + 1] == t;
    var code := CodeOf(r[0]);
    if code == Succeeded {
      assert r[0].message == ServerResponse(Succeeded, BoundIn(r[0]));
    } else {
      assert r[0].message == ServerResponse(code, UNSPECIFIED_ADDRESS);
      assert code != CommandNotSupported ==> KindReply(KindFor(code)) == code;
    }
  }

  lemma TwoReplies(t: seq<Sent>, login: bool, r: seq<Sent>, d: Conn)
    requires |r| == 2 && Rule(AwaitingRequest, r[0]) == FirstReply && Rule(FirstReply, r[1]) != Illegal
    requires t == d.sent + r
    ensures HandleBind(d, Obliging(t, login, r)).1.sent == t
  {
    var w := Obliging(t, login, r);
    assert t[|d.sent|] == r[0];
    ObligingSend(t, login, r, d);
    assert r[0].message == ServerResponse(Succeeded, BoundIn(r[0]));
    var (e, d1) := SendStep(r[0].message, d, w);
    assert t[|d1.sent|] == r[1];
    ObligingSend(t, login, r, d1);
    assert t[..|d1.sent| + 1] == t;
    var code := CodeOf(r[1]);
    if code == Succeeded {
      assert r[1].message == ServerResponse(Succeeded, BoundIn(r[1]));
    } else {
      assert r[1].message == ServerResponse(code, UNSPECIFIED_ADDRESS);
      assert KindReply(KindFor(code)) == code;
    }
    assert AwaitIncoming(d1, w).1.sent == t;
  }

  // ---------- the opening ----------

  function Hello(offered: byte): Chunk {
    PrintGreeting([offered])
  }

  function Login(): Chunk {
    PrintAuth([97], [97])
  }

  lemma HelloReceivedFrom(c: Conn, m: AuthMethod, rest: seq<Chunk>)
    requires c.input == Input([], [Hello(MethodByte(m))] + rest, Eof)
    ensures var (q, d) := RecvStep(Greeting, c);
            && q.Got? && q.message == ClientGreeting([m])
            && d.sent == c.sent && d.input == Input([], rest, Eof)
  {
    var raw := [MethodByte(m)];
    FlatSingle(Hello(MethodByte(m)));
    assert raw[1..] == [];
    assert KnownMethods(raw) == [m] + KnownMethods(raw[1..]);
    assert GreetingPrinted(Hello(MethodByte(m)), ClientGreeting([m]), raw);
    RecvStepSpoken(Greeting, [Hello(MethodByte(m))], rest, c, ClientGreeting([m]));
  }

  lemma LoginReceivedFrom(c: Conn, rest: seq<Chunk>)
    requires c.input == Input([], [Login()] + rest, Eof)
    ensures var (q, d) := RecvStep(Authentication, c);
            && q.Got? && q.message == AuthRequest([97], [97])
            && d.sent == c.sent && d.input == Input([], rest, Eof)
  {
    FlatSingle(Login());
    var one: seq<byte> := [97];
    assert one[1..] == [] && Utf8(one[1..]) && Utf8(one);
    RecvStepSpoken(Authentication, [Login()], rest, c, AuthRequest(one, one));
  }

  ghost predicate Realises(i: Input, w: World, t: seq<Sent>) {
    Serve(i, w).1.sent == t
  }

  lemma OpenDoor(t: seq<Sent>)
    requires t != [] && Rule(Opening, t[0]) == AwaitingRequest && LegalReplies(t[1..])
    ensures exists i, w :: Realises(i, w, t)
  {
    var r := t[1..];
    var w := Obliging(t, true, r);
    var i := Input([], [Hello(0)] + Ask(r), Eof);
    HelloReceivedFrom(Fresh(i), NoAuthenticationRequired, Ask(r));
    var (q, c) := RecvStep(Greeting, Fresh(i));
    ObligingSend(t, true, r, c);
    var (s, d) := Negotiate(Fresh(i), w);
    assert s.Ready? && d.sent == [t[0]] && d.input == Input([], Ask(r), Eof);
    assert t == d.sent + r;
    RepliesRealised(t, true, r, d);
    assert Realises(i, w, t);
  }

  lemma ClosedDoor(t: seq<Sent>)
    requires |t| == 1 && Rule(Opening, t[0]) == Over
    ensures exists i, w :: Realises(i, w, t)
  {
    var m := if t[0].message == ServerGreeting(NoAcceptableMethods) then Gssapi else t[0].message.selected;
    var w := Obliging(t, true, []);
    var i := Input([], [Hello(MethodByte(m))] + [], Eof);
    HelloReceivedFrom(Fresh(i), m, []);
    var (q, c) := RecvStep(Greeting, Fresh(i));
    ObligingSend(t, true, [], c);
    assert t[..1] == t;
    assert Realises(i, w, t);
  }

  /** A client that asks for a login and then disconnects. */
  lemma LoginOffered(t: seq<Sent>)
    requires |t| == 1 && Rule(Opening, t[0]) == AwaitingCredentials
    ensures exists i, w :: Realises(i, w, t)
  {
    var w := Obliging(t, true, []);
    var i := Input([], [Hello(2)] + [], Eof);
    HelloReceivedFrom(Fresh(i), UsernamePassword, []);
    var (q, c) := RecvStep(Greeting, Fresh(i));
    ObligingSend(t, true, [], c);
    var (e, c1) := SendStep(ServerGreeting(UsernamePassword), c, w);
    NothingToReceive(Authentication, c1);
    assert c1.sent == t && Negotiate(Fresh(i), w) == Authenticate(c1, w);
    assert Realises(i, w, t);
  }

  /** A client that logs in, successfully or not, and then asks for what the transcript shows. */
  lemma GuardedDoor(t: seq<Sent>, r: seq<Sent>, login: bool)
    requires |t| >= 2 && Rule(Opening, t[0]) == AwaitingCredentials && r == t[2..]
    requires login == (t[1].message == AuthResponse(Success))
    requires || (|t| == 2 && Rule(AwaitingCredentials, t[1]) == Over)
             || (Rule(AwaitingCredentials, t[1]) == AwaitingRequest && LegalReplies(r))
    ensures exists i, w :: Realises(i, w, t)
  {
    var w := Obliging(t, login, r);
    var rest := [Login()] + Ask(r);
    var i := Input([], [Hello(2)] + rest, Eof);
    HelloReceivedFrom(Fresh(i), UsernamePassword, rest);
    var (q, c) := RecvStep(Greeting, Fresh(i));
    ObligingSend(t, login, r, c);
    var (e, c1) := SendStep(ServerGreeting(UsernamePassword), c, w);
    assert Negotiate(Fresh(i), w) == Authenticate(c1, w);
    LoginAnswered(t, r, login, c1);
    var (s, d) := Authenticate(c1, w);
    if s.Ready? {
      assert t == d.sent + r;
      RepliesRealised(t, login, r, d);
    } else {
      assert t[..2] == t;
    }
    assert Realises(i, w, t);
  }

  lemma LoginAnswered(t: seq<Sent>, r: seq<Sent>, login: bool, c: Conn)
    requires |t| >= 2 && c.sent == t[..1] && c.input == Input([], [Login()] + Ask(r), Eof)
    requires login == (t[1].message == AuthResponse(Success))
    requires Rule(AwaitingCredentials, t[1]) in {Over, AwaitingRequest}
    ensures var (s, d) := Authenticate(c, Obliging(t, login, r));
            && d.sent == t[..2]
            && (s.Ready? <==> Rule(AwaitingCredentials, t[1]) == AwaitingRequest)
            && (s.Ready? ==> d.input == Input([], Ask(r), Eof))
  {
    LoginReceivedFrom(c, Ask(r));
    var (q, c1) := RecvStep(Authentication, c);
    assert c1.sent < t;
    ObligingSend(t, login, r, c1);
  }

  /** The transcripts of all runs in all environments are exactly those the automaton allows. */
  lemma TranscriptLanguage(t: seq<Sent>)
    ensures (exists i, w :: Realises(i, w, t)) <==> Judged(t) != Illegal
  {
    if i, w :| Realises(i, w, t) {
      TranscriptSafe(i, w);
    }
    if Judged(t) != Illegal {
      LegalIsRealised(t);
    }
  }

  lemma LegalIsRealised(t: seq<Sent>)
    requires Judged(t) != Illegal
    ensures exists i, w :: Realises(i, w, t)
  {
    JudgedIsFromOpening(t);
    if t == [] {
      var i, w := Input([], [], Eof), Obliging([], true, []);
      NothingToReceive(Greeting, Fresh(i));
      assert Realises(i, w, t);
    } else {
      match Rule(Opening, t[0]) {
        case AwaitingRequest =>
          RepliesShape(t[1..]);
          OpenDoor(t);
        case AwaitingCredentials =>
          if |t| == 1 {
            LoginOffered(t);
          } else {
            assert t[1..][0] == t[1] && t[1..][1..] == t[2..];
            if Rule(AwaitingCredentials, t[1]) == AwaitingRequest {
              RepliesShape(t[2..]);
            } else {
              NothingAfter(Rule(AwaitingCredentials, t[1]), t[2..]);
            }
            GuardedDoor(t, t[2..], t[1].message == AuthResponse(Success));
          }
        case _ =>
          NothingAfter(Rule(Opening, t[0]), t[1..]);
          ClosedDoor(t);
      }
    }
  }
}
