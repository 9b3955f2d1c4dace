/** What each received message is answered with. */
module Answered {
  import opened Wire
  import opened ServerCodecs
  import opened Errors
  import opened FramedStream
  import opened Handshake

  /** The responses to requests among what was sent. */
  function Responses(t: seq<Sent>): seq<Sent> {
    if t == [] then []
    else (if t[0].message.ServerResponse? then [t[0]] else []) + Responses(t[1..])
  }

  /** A refusal of a request names no address. */
  function Refused(r: Reply): ServerMessage {
    ServerResponse(r, Ipv4([0, 0, 0, 0], 0))
  }

  lemma {:induction false} ResponsesConcat(s: seq<Sent>, t: seq<Sent>)
    requires forall k :: 0 <= k < |s| ==> !s[k].message.ServerResponse?
    requires forall k :: 0 <= k < |t| ==> t[k].message.ServerResponse?
    ensures Responses(s + t) == t
  {
    if s == [] {
      assert s + t == t;
      AllResponses(t);
    } else {
      assert (s + t)[1..] == s[1..] + t;
      ResponsesConcat(s[1..], t);
    }
  }

  lemma {:induction false} AllResponses(t: seq<Sent>)
    requires forall k :: 0 <= k < |t| ==> t[k].message.ServerResponse?
    ensures Responses(t) == t
  {
    if t != [] {
      AllResponses(t[1..]);
    }
  }

  // ---------- requests ----------

  ghost predicate BindAnswered(w: World, replies: seq<Sent>, s: Status) {
    match w.listen
    case BindFails(k) => |replies| == 1 && replies[0].message == Refused(KindReply(k)) && s == Closed(Io(k))
    case NoLocalAddr(k) => |replies| == 1 && replies[0].message == Refused(KindReply(k)) && s == Closed(Io(k))
    case ListensOn(addr) =>
      && |replies| == (if replies != [] && replies[0].delivered then 2 else 1)
      && replies[0].message == ServerResponse(Succeeded, addr)
      && (replies[0].delivered ==> IncomingAnswered(w.accept, replies[1], s))
      && (!replies[0].delivered ==> s.Closed?)
  }

  ghost predicate IncomingAnswered(incoming: Incoming, reply: Sent, s: Status) {
    match incoming
    case Accepted(peer) => reply.message == ServerResponse(Succeeded, peer) && (s.Tunnelled? <==> reply.delivered)
    case AcceptFails(k) => reply.message == Refused(KindReply(k)) && s == Closed(Io(k))
    case AcceptTimesOut => reply.message == Refused(HostUnreachable) && s == Closed(Timeout)
  }

  ghost predicate ConnectAnswered(u: Upstream, replies: seq<Sent>, s: Status) {
    && |replies| == 1
    && match u
       case Connected(local) =>
         && replies[0].message == ServerResponse(Succeeded, if local.Some? then local.value else Ipv4([0, 0, 0, 0], 0))
         && (s.Tunnelled? <==> replies[0].delivered)
       case Unreachable(e) => replies[0].message == Refused(ToReply(e)) && s == Closed(e)
  }

  ghost predicate CommandAnswered(m: ClientMessage, w: World, replies: seq<Sent>, s: Status)
    requires m.ClientRequest?
  {
    match m.command
    case Connect => ConnectAnswered(w.connect(m.dstAddress), replies, s)
    case Bind => BindAnswered(w, replies, s)
    case UdpAssociate =>
      |replies| == 1 && replies[0].message == Refused(CommandNotSupported) && s == Closed(CommandNotSupportedError)
  }

  /** `d` has sent responses beyond what `c` has sent. */
  ghost predicate SendsResponses(c: Conn, d: Conn) {
    && c.sent <= d.sent
    && forall k :: |c.sent| <= k < |d.sent| ==> d.sent[k].message.ServerResponse?
  }

  lemma ConnectSends(dst: Address, c: Conn, w: World)
    ensures var (s, d) := HandleConnect(dst, c, w);
            d.got == c.got && SendsResponses(c, d) && ConnectAnswered(w.connect(dst), d.sent[|c.sent|..], s)
  {
  }

  lemma IncomingSends(c: Conn, w: World)
    ensures var (s, d) := AwaitIncoming(c, w);
            && d.got == c.got && SendsResponses(c, d)
            && |d.sent| == |c.sent| + 1 && IncomingAnswered(w.accept, d.sent[|c.sent|], s)
  {
    if w.accept.AcceptFails? {
      assert ToReply(Io(w.accept.kind)) == KindReply(w.accept.kind);
    }
  }

  lemma BindSends(c: Conn, w: World)
    ensures var (s, d) := HandleBind(c, w);
            d.got == c.got && SendsResponses(c, d) && BindAnswered(w, d.sent[|c.sent|..], s)
  {
    if w.listen.ListensOn? {
      var (e, c1) := SendStep(ServerResponse(Succeeded, w.listen.addr), c, w);
      if e.None? {
        IncomingSends(c1, w);
      }
    }
  }

  lemma HandleSends(c: Conn, w: World)
    ensures var (s, d) := Handle(c, w); var (r, c1) := RecvStep(Request, c);
            if r.Got?
            then d.got == c.got + [r.message] && SendsResponses(c, d)
                 && CommandAnswered(r.message, w, d.sent[|c.sent|..], s)
            else d.got == c.got && d.sent == c.sent && s == Closed(r.error)
  {
    var (r, c1) := RecvStep(Request, c);
    if r.Got? {
      match r.message.command {
        case Connect => ConnectSends(r.message.dstAddress, c1, w);
        case Bind => BindSends(c1, w);
        case UdpAssociate =>
      }
    }
  }

  ghost predicate NoRequestYet(c: Conn) {
    && (forall k :: 0 <= k < |c.got| ==> !c.got[k].ClientRequest?)
    && (forall k :: 0 <= k < |c.sent| ==> !c.sent[k].message.ServerResponse?)
  }

  lemma AuthenticateNoRequest(c: Conn, w: World)
    requires NoRequestYet(c)
    ensures NoRequestYet(Authenticate(c, w).1)
  {
  }

  lemma NegotiateNoRequest(i: Input, w: World)
    ensures NoRequestYet(Negotiate(Fresh(i), w).1)
  {
    var (r, c1) := RecvStep(Greeting, Fresh(i));
    if r.Got? && UsernamePassword in r.message.methods {
      var (e, c2) := SendStep(ServerGreeting(UsernamePassword), c1, w);
      AuthenticateNoRequest(c2, w);
    }
  }

  /** In every run, a request is answered by exactly the replies that it calls for, whatever is delivered: CONNECT by
      the bound address or the error's code; BIND by the listening address and then by the peer's address, the code
      of what failed, or an unreachable host if nobody came; UDP ASSOCIATE by a refusal. No request, no reply. */
  lemma RequestIsAnswered(i: Input, w: World)
    ensures var (s, c) := Serve(i, w);
            if c.got != [] && c.got[|c.got| - 1].ClientRequest?
            then CommandAnswered(c.got[|c.got| - 1], w, Responses(c.sent), s)
            else Responses(c.sent) == []
  {
    NegotiateNoRequest(i, w);
    var (s, d) := Negotiate(Fresh(i), w);
    if s.Ready? {
      HandleSends(d, w);
      var c := Handle(d, w).1;
      assert c.sent == d.sent + c.sent[|d.sent|..];
      ResponsesConcat(d.sent, c.sent[|d.sent|..]);
    } else {
      ResponsesConcat(d.sent, []);
      assert d.sent + [] == d.sent;
    }
  }

  // ---------- greetings and credentials ----------

  /** In every run that receives credentials they are the second message, and so is the answer: success exactly if
      the provider accepts them, and after a failure nothing else is sent. */
  lemma LoginIsAnswered(i: Input, w: World)
    ensures var (s, c) := Serve(i, w);
            |c.got| >= 2 && c.got[1].AuthRequest? ==>
              var accepted := w.authenticate(c.got[1].username, c.got[1].password);
              && |c.sent| >= 2 && c.sent[0] == Sent(ServerGreeting(UsernamePassword), true)
              && c.sent[1].message == AuthResponse(if accepted.None? then Success else Failure)
              && (accepted.Some? ==> |c.sent| == 2 && |c.got| == 2 && s == Closed(AuthenticationFailed(accepted.value)))
    ensures forall k :: 0 <= k < |Serve(i, w).1.got| && Serve(i, w).1.got[k].AuthRequest? ==> k == 1
  {
    NegotiateLogin(i, w);
    var (s, d) := Negotiate(Fresh(i), w);
    if s.Ready? {
      HandleSends(d, w);
    }
  }

  lemma NegotiateLogin(i: Input, w: World)
    ensures var (s, c) := Negotiate(Fresh(i), w);
            && |c.got| <= 2 && (s.Ready? ==> c.got != [])
            && (forall k :: 0 <= k < |c.got| && c.got[k].AuthRequest? ==> k == 1)
            && (|c.got| == 2 ==> c.got[1].AuthRequest?)
            && (|c.got| >= 2 ==>
                  var accepted := w.authenticate(c.got[1].username, c.got[1].password);
                  && |c.sent| == 2 && c.sent[0] == Sent(ServerGreeting(UsernamePassword), true)
                  && c.sent[1].message == AuthResponse(if accepted.None? then Success else Failure)
                  && (accepted.Some? ==> s == Closed(AuthenticationFailed(accepted.value))))
  {
  }

  /** A client that is refused for its methods is told so, and nothing else. */
  lemma NoMethodIsRefused(i: Input, w: World)
    ensures var (s, c) := Serve(i, w);
            c.sent != [] && c.sent[0].message == ServerGreeting(NoAcceptableMethods) ==>
              s == Closed(NoAcceptableMethod) && |c.sent| == 1 && |c.got| == 1
  {
    NegotiateRefuses(i, w);
    var (s, d) := Negotiate(Fresh(i), w);
    if s.Ready? {
      HandleSends(d, w);
    }
  }

  lemma NegotiateRefuses(i: Input, w: World)
    ensures var (s, c) := Negotiate(Fresh(i), w);
            && (c.sent != [] && c.sent[0].message == ServerGreeting(NoAcceptableMethods) ==>
                  s == Closed(NoAcceptableMethod) && |c.sent| == 1 && |c.got| == 1)
            && (s.Ready? ==> c.sent != [])
  {
  }

  // ---------- broken sends ----------

  /** What was delivered is what the network let through, and a message that broke was the last one; unless it was a
      refusal, whose error is told anyway, its failure is what the run ends with. */
  ghost predicate SendsDecide(c: Conn, w: World, s: Status) {
    && (forall k :: 0 <= k < |c.sent| ==> (c.sent[k].delivered <==> w.sends(k).Delivered?))
    && (forall k :: 0 <= k < |c.sent| - 1 ==> c.sent[k].delivered)
    && (c.sent != [] && !c.sent[|c.sent| - 1].delivered && !c.shut ==> s == Closed(Io(w.sends(|c.sent| - 1).kind)))
  }

  ghost predicate AllSent(c: Conn, w: World) {
    !c.shut && forall k :: 0 <= k < |c.sent| ==> c.sent[k].delivered && w.sends(k).Delivered?
  }

  lemma SendDecided(m: ServerMessage, c: Conn, w: World)
    requires AllSent(c, w)
    ensures var (e, d) := SendStep(m, c, w);
            && (e.None? ==> AllSent(d, w))
            && (e.Some? ==> SendsDecide(d, w, Closed(e.value)))
            && forall s :: SendsDecide(SendAndShutdown(m, c, w), w, s)
  {
  }

  lemma AuthenticateDecided(c: Conn, w: World)
    requires AllSent(c, w)
    ensures var (s, d) := Authenticate(c, w); if s.Ready? then AllSent(d, w) else SendsDecide(d, w, s)
  {
    var (r, c1) := RecvStep(Authentication, c);
    SendDecided(AuthResponse(Success), c1, w);
    SendDecided(AuthResponse(Failure), c1, w);
  }

  lemma NegotiateDecided(c: Conn, w: World)
    requires AllSent(c, w)
    ensures var (s, d) := Negotiate(c, w); if s.Ready? then AllSent(d, w) else SendsDecide(d, w, s)
  {
    var (r, c1) := RecvStep(Greeting, c);
    SendDecided(ServerGreeting(UsernamePassword), c1, w);
    SendDecided(ServerGreeting(NoAuthenticationRequired), c1, w);
    SendDecided(ServerGreeting(NoAcceptableMethods), c1, w);
    var (e, c2) := SendStep(ServerGreeting(UsernamePassword), c1, w);
    if e.None? {
      AuthenticateDecided(c2, w);
    }
  }

  lemma ErrorReplyDecided(e: Socks5Error, c: Conn, w: World)
    requires AllSent(c, w)
    ensures var (s, d) := SendErrorReply(e, c, w); SendsDecide(d, w, s)
  {
    SendDecided(ServerResponse(ToReply(e), UNSPECIFIED_ADDRESS), c, w);
  }

  lemma ConnectDecided(dst: Address, c: Conn, w: World)
    requires AllSent(c, w)
    ensures var (s, d) := HandleConnect(dst, c, w); SendsDecide(d, w, s)
  {
    match w.connect(dst) {
      case Unreachable(e) => ErrorReplyDecided(e, c, w);
      case Connected(local) =>
        SendDecided(ServerResponse(Succeeded, if local.Some? then local.value else UNSPECIFIED_ADDRESS), c, w);
    }
  }

  lemma IncomingDecided(c: Conn, w: World)
    requires AllSent(c, w)
    ensures var (s, d) := AwaitIncoming(c, w); SendsDecide(d, w, s)
  {
    match w.accept {
      case AcceptFails(k) => ErrorReplyDecided(Io(k), c, w);
      case AcceptTimesOut => ErrorReplyDecided(Timeout, c, w);
      case Accepted(peer) => SendDecided(ServerResponse(Succeeded, peer), c, w);
    }
  }

  lemma BindDecided(c: Conn, w: World)
    requires AllSent(c, w)
    ensures var (s, d) := HandleBind(c, w); SendsDecide(d, w, s)
  {
    match w.listen {
      case BindFails(k) => ErrorReplyDecided(Io(k), c, w);
      case NoLocalAddr(k) => ErrorReplyDecided(Io(k), c, w);
      case ListensOn(addr) =>
        SendDecided(ServerResponse(Succeeded, addr), c, w);
        var (e, c1) := SendStep(ServerResponse(Succeeded, addr), c, w);
        if e.None? {
          IncomingDecided(c1, w);
        }
    }
  }

  lemma HandleDecided(c: Conn, w: World)
    requires AllSent(c, w)
    ensures var (s, d) := Handle(c, w); SendsDecide(d, w, s)
  {
    var (r, c1) := RecvStep(Request, c);
    if r.Got? {
      match r.message.command {
        case Connect => ConnectDecided(r.message.dstAddress, c1, w);
        case Bind => BindDecided(c1, w);
        case UdpAssociate => SendDecided(ServerResponse(CommandNotSupported, UNSPECIFIED_ADDRESS), c1, w);
      }
    }
  }

  lemma BrokenSendEndsRun(i: Input, w: World)
    ensures var (s, c) := Serve(i, w); SendsDecide(c, w, s)
  {
    NegotiateDecided(Fresh(i), w);
    var (s, d) := Negotiate(Fresh(i), w);
    if s.Ready? {
      HandleDecided(d, w);
    }
  }

  // ---------- receives that fail ----------

  /** The phase in which the next message is due. */
  function PhaseDue(got: seq<ClientMessage>): Phase {
    if got == [] then Greeting
    else if |got| == 1 && got[0].ClientGreeting? && UsernamePassword in got[0].methods then Authentication
    else Request
  }

  lemma {:induction false} RecvAgain(ph: Phase, i: Input)
    ensures var (r, o) := Recv(ph, i); r.Failed? ==> Recv(ph, o) == (r, o)
    decreases |i.chunks|
  {
    if Parse(ph, i.buf).Incomplete? && i.chunks != [] {
      RecvAgain(ph, i.(buf := i.buf + i.chunks[0], chunks := i.chunks[1..]));
    }
  }

  /** The last receive, of the message that was due, failed with the error that the run ended with. */
  ghost predicate EndedByReceive(s: Status, c: Conn) {
    s.Closed? && Recv(PhaseDue(c.got), c.input) == (Failed(s.error), c.input)
  }

  ghost predicate EndedBySend(c: Conn) {
    c.sent != [] && (c.shut || !c.sent[|c.sent| - 1].delivered)
  }

  lemma AuthenticateEnds(c: Conn, w: World)
    requires PhaseDue(c.got) == Authentication
    ensures var (s, d) := Authenticate(c, w);
            if s.Ready? then PhaseDue(d.got) == Request && !d.shut == !c.shut else EndedBySend(d) || EndedByReceive(s, d)
  {
    RecvAgain(Authentication, c.input);
  }

  lemma NegotiateEnds(i: Input, w: World)
    ensures var (s, d) := Negotiate(Fresh(i), w);
            if s.Ready? then PhaseDue(d.got) == Request else EndedBySend(d) || EndedByReceive(s, d)
  {
    RecvAgain(Greeting, i);
    var (r, c1) := RecvStep(Greeting, Fresh(i));
    if r.Got? && UsernamePassword in r.message.methods {
      var (e, c2) := SendStep(ServerGreeting(UsernamePassword), c1, w);
      if e.None? {
        AuthenticateEnds(c2, w);
      }
    }
  }

  lemma ErrorReplyEnds(e: Socks5Error, c: Conn, w: World)
    ensures EndedBySend(SendErrorReply(e, c, w).1)
  {
  }

  lemma CommandEnds(dst: Address, c: Conn, w: World)
    ensures var (s, d) := HandleConnect(dst, c, w); s.Tunnelled? || EndedBySend(d)
    ensures var (s, d) := AwaitIncoming(c, w); s.Tunnelled? || EndedBySend(d)
    ensures var (s, d) := HandleBind(c, w); s.Tunnelled? || EndedBySend(d)
  {
  }

  /** A run that ends without a tunnel ends by a refusal, by a send that broke, or by the error of its last receive:
      what the client's bytes and the end of its stream are for the message that was due. */
  lemma EveryEndIsTold(i: Input, w: World)
    ensures var (s, c) := Serve(i, w); s.Tunnelled? || EndedBySend(c) || EndedByReceive(s, c)
  {
    NegotiateEnds(i, w);
    var (s, d) := Negotiate(Fresh(i), w);
    if s.Ready? {
      RecvAgain(Request, d.input);
      var (r, c1) := RecvStep(Request, d);
      if r.Got? {
        CommandEnds(r.message.dstAddress, c1, w);
      }
    }
  }
}
