/** Which messages a handshake may exchange, and that its bytes carry exactly those messages. */
module Transcripts {
  import opened Wire
  import opened ServerCodecs
  import opened CodecLaws
  import opened Errors
  import opened FramedStream
  import opened Handshake
  import opened ClientView

  // ---------- the protocol as an automaton over the server's messages ----------

  datatype Judge =
    | Opening
    | AwaitingCredentials
    | AwaitingRequest
    | FirstReply
    | SecondReply
    | Over
    | Illegal

  /** The codes that report a failed connection attempt or a failed accept. */
  predicate ReportsFailure(r: Reply) {
    r == GeneralFailure || r == HostUnreachable || r == NetworkUnreachable || r == ConnectionRefused
  }

  function After(s: Sent, next: Judge): Judge {
    if s.delivered then next else Over
  }

  /** RFC 1928 and RFC 1929 as the server may speak them; nothing follows a refusal or a broken send. */
  function Rule(q: Judge, s: Sent): Judge {
    match q
    case Opening =>
      (match s.message
       case ServerGreeting(UsernamePassword) => After(s, AwaitingCredentials)
       case ServerGreeting(NoAuthenticationRequired) => After(s, AwaitingRequest)
       case ServerGreeting(NoAcceptableMethods) => Over
       case _ => Illegal)
    case AwaitingCredentials =>
      (match s.message
       case AuthResponse(Success) => After(s, AwaitingRequest)
       case AuthResponse(Failure) => Over
       case _ => Illegal)
    case AwaitingRequest =>
      if !s.message.ServerResponse? || s.message.bndAddress.Domain? then Illegal
      else if s.message.reply == Succeeded then After(s, FirstReply)
      else if s.message.bndAddress != UNSPECIFIED_ADDRESS then Illegal
      else if ReportsFailure(s.message.reply) || s.message.reply == CommandNotSupported then Over
      else Illegal
    case FirstReply =>
      if !s.message.ServerResponse? || s.message.bndAddress.Domain? then Illegal
      else if s.message.reply == Succeeded then After(s, SecondReply)
      else if s.message.bndAddress == UNSPECIFIED_ADDRESS && ReportsFailure(s.message.reply) then Over
      else Illegal
    case _ => Illegal
  }

  function Judged(t: seq<Sent>): Judge {
    if t == [] then Opening else Rule(Judged(t[..|t| - 1]), t[|t| - 1])
  }

  predicate Refusal(m: ServerMessage) {
    match m
    case ServerGreeting(s) => s == NoAcceptableMethods
    case AuthResponse(s) => s == Failure
    case ServerResponse(r, _) => r != Succeeded
  }

  ghost predicate EndsInRefusal(t: seq<Sent>) {
    t != [] && Refusal(t[|t| - 1].message)
  }

  ghost predicate EndsBroken(t: seq<Sent>) {
    t != [] && !t[|t| - 1].delivered
  }

  // ---------- messages and bytes ----------

  function Messages(t: seq<Sent>): seq<ServerMessage> {
    if t == [] then [] else Messages(t[..|t| - 1]) + [t[|t| - 1].message]
  }

  /** The automaton's state fixes the phase in which the next message is written. */
  ghost predicate JudgePhase(q: Judge, ph: Phase) {
    match q
    case Opening => ph == Greeting
    case AwaitingCredentials => ph == Authentication
    case AwaitingRequest => ph == Request
    case FirstReply => ph == Request
    case SecondReply => ph == Request
    case _ => false
  }

  /** The messages of a transcript that is still going on are well phased. */
  lemma {:induction false} LegalIsPhased(t: seq<Sent>)
    requires Judged(t) !in {Illegal, Over}
    ensures WellPhased(Greeting, Messages(t)) && JudgePhase(Judged(t), LastPhase(Greeting, Messages(t)))
    decreases |t|
  {
    if t != [] {
      var u := t[..|t| - 1];
      LegalIsPhased(u);
      AppendPhased(Greeting, Messages(u), t[|t| - 1].message);
    }
  }

  /** The messages that were delivered: all, or all but a last one that broke. */
  function DeliveredPart(t: seq<Sent>): seq<Sent> {
    if t != [] && !t[|t| - 1].delivered then t[..|t| - 1] else t
  }

  /** The written bytes encode the delivered messages; after them comes at most the beginning of one that broke. */
  ghost predicate WrittenBy(c: Conn) {
    && WellPhased(Greeting, Messages(DeliveredPart(c.sent)))
    && AllEncoded(Messages(DeliveredPart(c.sent))) <= c.written
    && c.written <= AllEncoded(Messages(c.sent))
    && (DeliveredPart(c.sent) == c.sent ==> c.written == AllEncoded(Messages(c.sent)))
  }

  /** How a connection stands between two messages: nothing sent so far was refused or broken. */
  ghost predicate Going(c: Conn, q: Judge) {
    && Judged(c.sent) == q && q !in {Illegal, Over}
    && !c.shut && !EndsInRefusal(c.sent) && !EndsBroken(c.sent)
    && WrittenBy(c)
  }

  /** How a closed connection stands: shut down exactly when the last message was a refusal, and that
      message or a broken send, if any, is the end of a legal transcript. */
  ghost predicate Stopped(c: Conn) {
    && Judged(c.sent) in {Opening, AwaitingCredentials, AwaitingRequest, Over}
    && (c.shut <==> EndsInRefusal(c.sent))
    && (Judged(c.sent) == Over <==> EndsInRefusal(c.sent) || EndsBroken(c.sent))
    && WrittenBy(c)
  }

  /** What an allowed message does to the automaton. */
  lemma RuleShape(q: Judge, m: ServerMessage)
    requires q !in {Illegal, Over} && Rule(q, Sent(m, true)) != Illegal
    ensures JudgePhase(q, PhaseOfMessage(m)) && NameFits(m)
    ensures Rule(q, Sent(m, false)) == Over
    ensures Refusal(m) <==> Rule(q, Sent(m, true)) == Over
    ensures Refusal(m) ==> q in {Opening, AwaitingCredentials, AwaitingRequest, FirstReply}
    ensures !Refusal(m) ==> JudgePhase(Rule(q, Sent(m, true)), NextPhase(m))
  {
  }

  lemma SendAppends(m: ServerMessage, c: Conn, w: World)
    ensures var (e, d) := SendStep(m, c, w); var last := Sent(m, e.None?);
            && d.got == c.got && d.frames == c.frames && d.input == c.input && d.shut == c.shut
            && d.sent == c.sent + [last]
            && Messages(d.sent) == Messages(c.sent) + [m]
            && Judged(d.sent) == Rule(Judged(c.sent), last)
            && (EndsInRefusal(d.sent) <==> Refusal(m)) && (EndsBroken(d.sent) <==> e.Some?)
  {
    var (e, d) := SendStep(m, c, w);
    assert d.sent[..|d.sent| - 1] == c.sent;
  }

  /** A message that the automaton allows keeps the connection going, or stops it in order. */
  lemma SendLegal(m: ServerMessage, c: Conn, w: World)
    requires Going(c, Judged(c.sent)) && Rule(Judged(c.sent), Sent(m, true)) != Illegal
    ensures var (e, d) := SendStep(m, c, w);
            && d.got == c.got && d.frames == c.frames && d.input == c.input
            && (!Refusal(m) && e.None? ==> Going(d, Rule(Judged(c.sent), Sent(m, true))))
            && (!Refusal(m) && e.Some? ==> Stopped(d))
            && (Refusal(m) ==> Stopped(SendAndShutdown(m, c, w)))
  {
    var q := Judged(c.sent);
    RuleShape(q, m);
    SendAppends(m, c, w);
    LegalIsPhased(c.sent);
    AppendPhased(Greeting, Messages(c.sent), m);
    SendWrites(m, c, w);
  }

  lemma SendWrites(m: ServerMessage, c: Conn, w: World)
    requires Going(c, Judged(c.sent))
    requires WellPhased(Greeting, Messages(c.sent) + [m])
    requires AllEncoded(Messages(c.sent) + [m]) == AllEncoded(Messages(c.sent)) + Encoded(m)
    ensures WrittenBy(SendStep(m, c, w).1)
  {
    var (e, d) := SendStep(m, c, w);
    SendAppends(m, c, w);
    assert DeliveredPart(c.sent) == c.sent && c.written == AllEncoded(Messages(c.sent));
    if e.None? {
      assert DeliveredPart(d.sent) == d.sent;
      assert d.written == c.written + Encoded(m);
    } else {
      assert DeliveredPart(d.sent) == d.sent[..|c.sent|] == c.sent;
      assert c.written <= d.written <= c.written + Encoded(m);
    }
  }

  // ---------- every phase keeps to the protocol ----------

  lemma GoingMayStop(c: Conn, q: Judge)
    requires Going(c, q) && q in {Opening, AwaitingCredentials, AwaitingRequest}
    ensures Stopped(c)
  {
  }

  lemma AuthenticateJudged(c: Conn, w: World)
    requires Going(c, AwaitingCredentials)
    ensures var (s, d) := Authenticate(c, w);
            (s.Ready? && Going(d, AwaitingRequest)) || (s.Closed? && Stopped(d))
  {
    var (r, c1) := RecvStep(Authentication, c);
    if r.Failed? {
      GoingMayStop(c1, AwaitingCredentials);
    } else if w.authenticate(r.message.username, r.message.password).None? {
      SendLegal(AuthResponse(Success), c1, w);
    } else {
      SendLegal(AuthResponse(Failure), c1, w);
    }
  }

  lemma NegotiateJudged(c: Conn, w: World)
    requires Going(c, Opening)
    ensures var (s, d) := Negotiate(c, w);
            (s.Ready? && Going(d, AwaitingRequest)) || (s.Closed? && Stopped(d))
  {
    var (r, c1) := RecvStep(Greeting, c);
    if r.Failed? {
      GoingMayStop(c1, Opening);
    } else if UsernamePassword in r.message.methods {
      SendLegal(ServerGreeting(UsernamePassword), c1, w);
      var (e, c2) := SendStep(ServerGreeting(UsernamePassword), c1, w);
      if e.None? {
        AuthenticateJudged(c2, w);
      }
    } else if w.allowNoAuth && NoAuthenticationRequired in r.message.methods {
      SendLegal(ServerGreeting(NoAuthenticationRequired), c1, w);
    } else {
      SendLegal(ServerGreeting(NoAcceptableMethods), c1, w);
    }
  }

  lemma ErrorReplyJudged(e: Socks5Error, c: Conn, w: World)
    requires Going(c, AwaitingRequest) || Going(c, FirstReply)
    ensures SendErrorReply(e, c, w).0.Closed? && Stopped(SendErrorReply(e, c, w).1)
  {
    var m := ServerResponse(ToReply(e), UNSPECIFIED_ADDRESS);
    FailureAllowed(Judged(c.sent), m);
    SendLegal(m, c, w);
  }

  lemma FailureAllowed(q: Judge, m: ServerMessage)
    requires q == AwaitingRequest || q == FirstReply
    requires m.ServerResponse? && m.bndAddress == UNSPECIFIED_ADDRESS && ReportsFailure(m.reply)
    ensures Rule(q, Sent(m, true)) != Illegal && Refusal(m)
  {
  }

  lemma ConnectJudged(dst: Address, c: Conn, w: World)
    requires Going(c, AwaitingRequest)
    ensures var (s, d) := HandleConnect(dst, c, w);
            (s.Tunnelled? && Going(d, FirstReply)) || (s.Closed? && Stopped(d))
  {
    match w.connect(dst) {
      case Unreachable(e) => ErrorReplyJudged(e, c, w);
      case Connected(local) =>
        SendLegal(ServerResponse(Succeeded, if local.Some? then local.value else UNSPECIFIED_ADDRESS), c, w);
    }
  }

  lemma IncomingJudged(c: Conn, w: World)
    requires Going(c, FirstReply)
    ensures var (s, d) := AwaitIncoming(c, w);
            (s.Tunnelled? && Going(d, SecondReply)) || (s.Closed? && Stopped(d))
  {
    match w.accept {
      case AcceptFails(k) => ErrorReplyJudged(Io(k), c, w);
      case AcceptTimesOut => ErrorReplyJudged(Timeout, c, w);
      case Accepted(peer) => SendLegal(ServerResponse(Succeeded, peer), c, w);
    }
  }

  lemma BindJudged(c: Conn, w: World)
    requires Going(c, AwaitingRequest)
    ensures var (s, d) := HandleBind(c, w);
            (s.Tunnelled? && Going(d, SecondReply)) || (s.Closed? && Stopped(d))
  {
    match w.listen {
      case BindFails(k) => ErrorReplyJudged(Io(k), c, w);
      case NoLocalAddr(k) => ErrorReplyJudged(Io(k), c, w);
      case ListensOn(addr) =>
        SendLegal(ServerResponse(Succeeded, addr), c, w);
        var (e, c1) := SendStep(ServerResponse(Succeeded, addr), c, w);
        if e.None? {
          IncomingJudged(c1, w);
        }
    }
  }

  lemma HandleJudged(c: Conn, w: World)
    requires Going(c, AwaitingRequest)
    ensures var (s, d) := Handle(c, w); var (r, c1) := RecvStep(Request, c);
            || (s.Closed? && Stopped(d))
            || (s.Tunnelled? && r.Got? && r.message.command == Connect && Going(d, FirstReply))
            || (s.Tunnelled? && r.Got? && r.message.command == Bind && Going(d, SecondReply))
  {
    var (r, c1) := RecvStep(Request, c);
    GoingMayStop(c1, AwaitingRequest);
    if r.Got? {
      match r.message.command {
        case Connect => ConnectJudged(r.message.dstAddress, c1, w);
        case Bind => BindJudged(c1, w);
        case UdpAssociate => SendLegal(ServerResponse(CommandNotSupported, UNSPECIFIED_ADDRESS), c1, w);
      }
    }
  }

  lemma ServeJudged(i: Input, w: World)
    ensures var (s, c) := Serve(i, w);
            || (s.Closed? && Stopped(c))
            || (s.Tunnelled? && (Going(c, FirstReply) || Going(c, SecondReply)))
  {
    NegotiateJudged(Fresh(i), w);
    var (s, c) := Negotiate(Fresh(i), w);
    if s.Ready? {
      HandleJudged(c, w);
    }
  }

  /** Every run speaks the protocol: its transcript is legal, it ends in a tunnel exactly when the automaton
      has seen one or two success replies, and the write side is shut exactly when the last message refuses. */
  lemma TranscriptSafe(i: Input, w: World)
    ensures var (s, c) := Serve(i, w);
            && s != Ready
            && Judged(c.sent) != Illegal
            && (s.Tunnelled? <==> Judged(c.sent) in {FirstReply, SecondReply})
            && (c.shut <==> EndsInRefusal(c.sent))
  {
    ServeJudged(i, w);
  }

  /** One success reply is a tunnel for CONNECT, two are one for BIND, and nothing else is tunnelled. */
  lemma TunnelAnswersRequest(i: Input, w: World)
    ensures var (s, c) := Serve(i, w);
            s.Tunnelled? ==>
              && c.got != [] && c.got[|c.got| - 1].ClientRequest?
              && c.got[|c.got| - 1].command == (if Judged(c.sent) == FirstReply then Connect else Bind)
  {
    NegotiateJudged(Fresh(i), w);
    var (s, c) := Negotiate(Fresh(i), w);
    if s.Ready? {
      HandleJudged(c, w);
      var (r, c1) := RecvStep(Request, c);
      if r.Got? {
        assert c1.got[|c1.got| - 1] == r.message;
        AnswersKeepGot(r.message.dstAddress, c1, w);
      }
    }
  }

  lemma AnswersKeepGot(dst: Address, c: Conn, w: World)
    ensures HandleConnect(dst, c, w).1.got == c.got
    ensures HandleBind(c, w).1.got == c.got
  {
  }

  /** A legal transcript names no bound address but IP addresses. */
  lemma {:induction false} LegalNamesNothing(t: seq<Sent>)
    requires Judged(t) != Illegal
    ensures forall k :: 0 <= k < |t| && t[k].message.ServerResponse? ==> !t[k].message.bndAddress.Domain?
    decreases |t|
  {
    if t != [] {
      LegalNamesNothing(t[..|t| - 1]);
    }
  }

  /** A client that reads the bytes written in any run gets back exactly the delivered messages, in order,
      and nothing else unless a send broke in the middle; and no name is ever sent, so no length is cut. */
  lemma ClientReadsTranscript(i: Input, w: World)
    ensures var c := Serve(i, w).1; var told := AllOnTheWire(Messages(DeliveredPart(c.sent)));
            && told <= ReadTranscript(Greeting, c.written).0
            && (!EndsBroken(c.sent) ==> ReadTranscript(Greeting, c.written) == (told, []))
            && AllEncoded(Messages(DeliveredPart(c.sent))) <= c.written <= AllEncoded(Messages(c.sent))
            && (forall k :: 0 <= k < |c.sent| && c.sent[k].message.ServerResponse? ==>
                  !c.sent[k].message.bndAddress.Domain?)
  {
    ServeJudged(i, w);
    LegalNamesNothing(Serve(i, w).1.sent);
    var c := Serve(i, w).1;
    assert WrittenBy(c);
    var ms := Messages(DeliveredPart(c.sent));
    var tail := c.written[|AllEncoded(ms)|..];
    assert c.written == AllEncoded(ms) + tail;
    ReadInvertsWrite(Greeting, ms, tail);
    if !EndsBroken(c.sent) {
      assert tail == [];
      assert ReadTranscript(LastPhase(Greeting, ms), []) == ([], []);
      assert AllOnTheWire(ms) + [] == AllOnTheWire(ms);
    }
  }
}
