/** From the addresses of a name to the reply that the client reads. */
module EndToEnd {
  import opened Wire
  import opened ServerCodecs
  import opened Errors
  import opened FramedStream
  import opened Handshake
  import opened Transcripts
  import opened Addresses
  import opened ConnectEngine
  import opened HappyEyeballs
  import opened ConnectUpstream

  ghost predicate AsksFor(c: Conn, dst: Address) {
    c.got != [] && c.got[|c.got| - 1] == ClientRequest(Connect, dst)
  }

  ghost predicate LastReplyIs(c: Conn, r: Reply) {
    && c.sent != []
    && c.sent[|c.sent| - 1].message.ServerResponse?
    && c.sent[|c.sent| - 1].message.reply == r
  }

  /** The reply code that the outcome of connecting calls for. */
  function CodeFor(u: Upstream): Reply {
    match u
    case Connected(_) => Succeeded
    case Unreachable(e) => ToReply(e)
  }

  /** Every CONNECT request that is received is answered, as the last message, by the code for its outcome. */
  lemma ConnectIsAnswered(i: Input, w: World, dst: Address)
    ensures AsksFor(Serve(i, w).1, dst) ==> LastReplyIs(Serve(i, w).1, CodeFor(w.connect(dst)))
  {
    var (s, c) := Negotiate(Fresh(i), w);
    NegotiateTakesNoRequest(i, w);
    if s.Ready? {
      HandleAnswers(c, w, dst);
    }
  }

  lemma ConnectReplies(dst: Address, c: Conn, w: World)
    ensures LastReplyIs(HandleConnect(dst, c, w).1, CodeFor(w.connect(dst)))
    ensures HandleConnect(dst, c, w).1.got == c.got
  {
  }

  lemma HandleAnswers(c: Conn, w: World, dst: Address)
    requires forall k :: 0 <= k < |c.got| ==> !c.got[k].ClientRequest?
    ensures AsksFor(Handle(c, w).1, dst) ==> LastReplyIs(Handle(c, w).1, CodeFor(w.connect(dst)))
  {
    var (r, c1) := RecvStep(Request, c);
    if r.Got? {
      assert c1.got[|c1.got| - 1] == r.message;
      ConnectReplies(r.message.dstAddress, c1, w);
      AnswersKeepGot(r.message.dstAddress, c1, w);
    }
  }

  lemma NegotiateTakesNoRequest(i: Input, w: World)
    ensures forall k :: 0 <= k < |Negotiate(Fresh(i), w).1.got| ==> !Negotiate(Fresh(i), w).1.got[k].ClientRequest?
  {
    var (r, c1) := RecvStep(Greeting, Fresh(i));
    if r.Got? && UsernamePassword in r.message.methods {
      var (e, c2) := SendStep(ServerGreeting(UsernamePassword), c1, w);
      var (q, c3) := RecvStep(Authentication, c2);
      assert c2.got == [r.message];
    }
  }

  /** The handler's view of an outcome of `ConnectToUpstream`. */
  ghost predicate Delivers(r: Reached, u: Upstream) {
    match r
    case Linked(_) => u.Connected?
    case NotReached(e) => u.Unreachable? && u.error == e
  }

  /** What a client that asked for a name learns from the reply: success means that some resolved address was
      reached; a refusal that all of them failed and at least one refused; an unreachable network that all of
      them failed, none refused and one had no network; and a name with an address that answers in time is
      never refused. All three hold the other way, too, exactly as far as the call takes no longer than the
      limit; if it does, whatever happened becomes an unreachable host. */
  lemma ClientLearnsFate(i: Input, w: World, dst: Address, r: Reached,
                         found: seq<IpAddr>, order: seq<IpAddr>, fate: IpAddr -> Fate, t: Timing, resolved: nat, limit: nat)
    requires dst.Domain? && Delivers(r, w.connect(dst))
    requires Answers(found, order, fate, t, resolved, limit, r)
    ensures AsksFor(Serve(i, w).1, dst) ==> LastReplyIs(Serve(i, w).1, CodeFor(w.connect(dst)))
    ensures var code, intime := CodeFor(w.connect(dst)), resolved + CallTime(order, fate, t) <= limit;
            && (code == Succeeded <==> r.Linked?)
            && (code == Succeeded <==> intime && exists a :: a in found && AttemptAt(fate, a, t).None?)
            && (code == ConnectionRefused <==> intime && AllFailRefused(found, fate, t))
            && (code == NetworkUnreachable <==> intime && AllFailUnreachable(found, fate, t))
            && (!intime ==> code == HostUnreachable)
            && (found == [] ==> code == HostUnreachable)
            && (resolved + LongestRace(t, |order|) <= limit ==> intime)
            && ((exists k :: 0 <= k < |order| && ConnectsBy(order[k], fate, t, resolved, k, limit)) ==> code == Succeeded)
  {
    if AsksFor(Serve(i, w).1, dst) {
      ConnectIsAnswered(i, w, dst);
    }
    CallInTime(order, fate, t, resolved);
    assert ToReply(Timeout) == ToReply(DnsResolutionFailed) == HostUnreachable;
    if r.NotReached? && r.error != Timeout && found != [] {
      assert FailureExplained(found, fate, t, r.error);
    }
  }
}
