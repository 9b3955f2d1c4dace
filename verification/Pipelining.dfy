/** Clients that wait for the server's messages, and clients that send ahead. */
module Pipelining {
  import opened Wire
  import opened ServerCodecs
  import opened CodecLaws
  import opened FramedStream
  import opened Handshake
  import opened HandshakeLaws
  import opened Intake

  /** The frames that a client sends, and the messages they stand for; the login is sent only if offered. */
  datatype Script = Script(hello: seq<byte>, login: seq<byte>, ask: seq<byte>,
                           greeting: ClientMessage, credentials: ClientMessage, request: ClientMessage)

  predicate LogsIn(cl: Script) {
    cl.greeting.ClientGreeting? && UsernamePassword in cl.greeting.methods
  }

  ghost predicate WellFormed(cl: Script) {
    && Prints(Greeting, cl.hello, cl.greeting)
    && (LogsIn(cl) ==> Prints(Authentication, cl.login, cl.credentials))
    && Prints(Request, cl.ask, cl.request)
  }

  function Talk(cl: Script): seq<seq<byte>> {
    if LogsIn(cl) then [cl.hello, cl.login, cl.ask] else [cl.hello, cl.ask]
  }

  /** The whole stream of a client: its frames, then what is meant for the tunnel. */
  function Sends(cl: Script, payload: seq<byte>): seq<byte> {
    cl.hello + ((if LogsIn(cl) then cl.login else []) + (cl.ask + payload))
  }

  // ---------- one receive ----------

  lemma {:induction false} BufferAtDecision(ph: Phase, i: Input)
    ensures var (r, o) := Recv(ph, i);
            && (r.Got? ==> r.used + |o.buf| <= MaxFrame(ph))
            && (r == TooLarge ==> |o.buf| > MaxFrame(ph))
    decreases |i.chunks|
  {
    LimitsExact(ph, i.buf);
    if Parse(ph, i.buf).Incomplete? && i.chunks != [] {
      BufferAtDecision(ph, i.(buf := i.buf + i.chunks[0], chunks := i.chunks[1..]));
    }
  }

  /** A stream that begins with a printed frame can only yield that frame, or overfill the buffer. */
  lemma RecvSpoken(ph: Phase, i: Input, f: seq<byte>, m: ClientMessage, later: seq<byte>)
    requires Prints(ph, f, m) && Pending(i) == f + later
    ensures var (r, o) := Recv(ph, i); r == TooLarge || (r == Got(m, |f|) && Pending(o) == later)
  {
    WholeStreamSpoken(ph, f, m, later, i.end);
    RecvSeesWholeStream(ph, i);
    assert (f + later)[|f|..] == later;
  }

  lemma WholeStreamSpoken(ph: Phase, f: seq<byte>, m: ClientMessage, later: seq<byte>, end: StreamEnd)
    requires Prints(ph, f, m)
    ensures WholeStream(ph, f + later, end) == Got(m, |f|)
  {
    PrintedDecodes(ph, f, m);
    var s := f + later;
    var window := s[..Min(|s|, MaxFrame(ph))];
    assert window == f + window[|f|..];
    PrefixStable(ph, f, window[|f|..]);
  }

  /** With an empty buffer before it, a receive leaves an empty buffer exactly when it reads no more bytes than
      its frame has; it has the frame then. */
  lemma RecvInTurn(ph: Phase, i: Input, f: seq<byte>, m: ClientMessage, later: seq<byte>)
    requires Prints(ph, f, m) && i.buf == [] && Flat(i.chunks) == f + later
    ensures var (r, o) := Recv(ph, i);
            && (o.buf == [] <==> |Flat(i.chunks)| - |Flat(o.chunks)| <= |f|)
            && (o.buf == [] ==> r == Got(m, |f|) && Flat(o.chunks) == later)
  {
    PrintedDecodes(ph, f, m);
    LimitsExact(ph, f);
    assert Pending(i) == f + later;
    RecvSpoken(ph, i, f, m, later);
    RecvSeesWholeStream(ph, i);
    BufferAtDecision(ph, i);
  }

  // ---------- clients that wait ----------

  /** The connection as it stands after each receive of a run. */
  function Receipts(i: Input, w: World): seq<Conn> {
    var (r, c1) := RecvStep(Greeting, Fresh(i));
    [c1] +
    if r.Got? && UsernamePassword in r.message.methods then
      var (e, c2) := SendStep(ServerGreeting(UsernamePassword), c1, w);
      if e.None? then LoginReceipts(c2, w) else []
    else AskReceipts(Negotiate(Fresh(i), w), w)
  }

  function LoginReceipts(c: Conn, w: World): seq<Conn> {
    [RecvStep(Authentication, c).1] + AskReceipts(Authenticate(c, w), w)
  }

  function AskReceipts(negotiated: (Status, Conn), w: World): seq<Conn> {
    if negotiated.0.Ready? then [RecvStep(Request, negotiated.1).1] else []
  }

  /** How many bytes have been read from the socket. */
  function BytesRead(i: Input, c: Conn): int {
    |Flat(i.chunks)| - |Flat(c.input.chunks)|
  }

  /** The bytes that a waiting client has sent when it has been sent `told` messages: one frame more. */
  function Allowance(cl: Script, told: nat): nat {
    |Joined(Talk(cl)[..Min(told + 1, |Talk(cl)|)])|
  }

  /** No receive in `cs` has read what the client sends only after a message that the server has not sent yet. */
  ghost predicate Patient(cl: Script, i: Input, cs: seq<Conn>) {
    forall k :: 0 <= k < |cs| ==> BytesRead(i, cs[k]) <= Allowance(cl, |cs[k].sent|)
  }

  ghost predicate AllEmpty(cs: seq<Conn>) {
    forall k :: 0 <= k < |cs| ==> cs[k].input.buf == []
  }

  lemma OneReceiptMore(cl: Script, i: Input, c: Conn, cs: seq<Conn>)
    ensures Patient(cl, i, [c] + cs) <==> BytesRead(i, c) <= Allowance(cl, |c.sent|) && Patient(cl, i, cs)
    ensures AllEmpty([c] + cs) <==> c.input.buf == [] && AllEmpty(cs)
  {
    var all := [c] + cs;
    assert all[0] == c && forall k :: 0 <= k < |cs| ==> cs[k] == all[k + 1];
  }

  lemma AllowanceAt(cl: Script)
    ensures Allowance(cl, 0) == |cl.hello|
    ensures LogsIn(cl) ==> Allowance(cl, 1) == |cl.hello| + |cl.login|
    ensures Allowance(cl, |Talk(cl)| - 1) == |cl.hello| + (if LogsIn(cl) then |cl.login| else 0) + |cl.ask|
  {
    assert Talk(cl)[..1] == [cl.hello] && Joined([cl.hello]) == [] + cl.hello;
    assert Talk(cl)[..2][..1] == [cl.hello];
    assert Talk(cl)[..2] == [cl.hello, Talk(cl)[1]];
    assert |Joined(Talk(cl)[..2])| == |cl.hello| + |Talk(cl)[1]|;
    if LogsIn(cl) {
      assert Talk(cl)[..3] == Talk(cl) && Talk(cl)[..3][..2] == Talk(cl)[..2];
    }
  }

  /** A receive of the run in which the frame `f` is due, after `before` bytes that are already decoded. */
  lemma ReceiptInTurn(ph: Phase, i: Input, before: nat, c: Conn, f: seq<byte>, m: ClientMessage, later: seq<byte>)
    requires Prints(ph, f, m)
    requires c.input.buf == [] && Flat(c.input.chunks) == f + later && BytesRead(i, c) == before
    ensures var (r, d) := RecvStep(ph, c);
            && d.sent == c.sent
            && (d.input.buf == [] <==> BytesRead(i, d) <= before + |f|)
            && (d.input.buf == [] ==>
                  && r == Got(m, |f|) && d.frames == c.frames + [f]
                  && Flat(d.input.chunks) == later && BytesRead(i, d) == before + |f|)
  {
    RecvInTurn(ph, c.input, f, m, later);
    assert Pending(c.input) == f + later && (f + later)[..|f|] == f;
  }

  /** The end of a run after its negotiation. */
  function Concluded(negotiated: (Status, Conn), w: World): (Status, Conn) {
    if negotiated.0.Ready? then Handle(negotiated.1, w) else negotiated
  }

  /** Not refused for an overfull buffer; and a tunnel gets everything after the request. */
  ghost predicate Whole(cl: Script, payload: seq<byte>, run: (Status, Conn)) {
    && run.0 != OverfullStatus
    && run.1.input.buf == []
    && (run.0.Tunnelled? ==> run.1.frames == Talk(cl) && Flat(run.1.input.chunks) == payload)
  }

  /** The negotiation has ended with an empty buffer, and the request is due next. */
  ghost predicate Asking(cl: Script, payload: seq<byte>, i: Input, negotiated: (Status, Conn)) {
    var (s, d) := negotiated;
    && s != OverfullStatus && !s.Tunnelled? && d.input.buf == []
    && (s.Ready? ==>
          && |d.sent| == |Talk(cl)| - 1 && d.frames + [cl.ask] == Talk(cl)
          && Flat(d.input.chunks) == cl.ask + payload
          && BytesRead(i, d) == |cl.hello| + if LogsIn(cl) then |cl.login| else 0)
  }

  lemma HandleAfterReceipt(d: Conn, w: World)
    requires RecvStep(Request, d).0.Got?
    ensures Handle(d, w).0 != OverfullStatus && SameIntake(RecvStep(Request, d).1, Handle(d, w).1)
  {
    HandleTakes(d, w);
  }

  lemma AskInTurn(cl: Script, payload: seq<byte>, i: Input, negotiated: (Status, Conn), w: World)
    requires WellFormed(cl) && Asking(cl, payload, i, negotiated)
    ensures Patient(cl, i, AskReceipts(negotiated, w)) <==> AllEmpty(AskReceipts(negotiated, w))
    ensures AllEmpty(AskReceipts(negotiated, w)) ==> Whole(cl, payload, Concluded(negotiated, w))
  {
    var (s, d) := negotiated;
    if s.Ready? {
      AllowanceAt(cl);
      ReceiptInTurn(Request, i, BytesRead(i, d), d, cl.ask, cl.request, payload);
      var (r, c) := RecvStep(Request, d);
      OneReceiptMore(cl, i, c, []);
      assert [c] + [] == AskReceipts(negotiated, w);
      if c.input.buf == [] {
        HandleAfterReceipt(d, w);
      }
    }
  }

  lemma LoginInTurn(cl: Script, payload: seq<byte>, i: Input, c2: Conn, w: World)
    requires WellFormed(cl) && LogsIn(cl) && |c2.sent| == 1 && c2.frames == [cl.hello]
    requires c2.input.buf == [] && Flat(c2.input.chunks) == cl.login + (cl.ask + payload)
    requires BytesRead(i, c2) == |cl.hello|
    ensures Patient(cl, i, LoginReceipts(c2, w)) <==> AllEmpty(LoginReceipts(c2, w))
    ensures AllEmpty(LoginReceipts(c2, w)) ==> Whole(cl, payload, Concluded(Authenticate(c2, w), w))
  {
    AllowanceAt(cl);
    ReceiptInTurn(Authentication, i, |cl.hello|, c2, cl.login, cl.credentials, cl.ask + payload);
    var c3 := RecvStep(Authentication, c2).1;
    OneReceiptMore(cl, i, c3, AskReceipts(Authenticate(c2, w), w));
    if c3.input.buf == [] {
      LoginAsks(cl, payload, i, c2, w);
      AskInTurn(cl, payload, i, Authenticate(c2, w), w);
    }
  }

  lemma LoginAsks(cl: Script, payload: seq<byte>, i: Input, c2: Conn, w: World)
    requires LogsIn(cl) && |c2.sent| == 1
    requires var (r, c3) := RecvStep(Authentication, c2);
             && r == Got(cl.credentials, |cl.login|) && c3.sent == c2.sent
             && c3.input.buf == [] && c3.frames == [cl.hello, cl.login] && Flat(c3.input.chunks) == cl.ask + payload
             && BytesRead(i, c3) == |cl.hello| + |cl.login|
    ensures Asking(cl, payload, i, Authenticate(c2, w))
  {
    var (s, d) := Authenticate(c2, w);
    var c3 := RecvStep(Authentication, c2).1;
    assert d.input == c3.input && d.frames == c3.frames && |d.sent| == 2;
  }

  lemma GreetingAsks(cl: Script, payload: seq<byte>, i: Input, w: World)
    requires cl.greeting.ClientGreeting? && !LogsIn(cl)
    requires var (r, c1) := RecvStep(Greeting, Fresh(i));
             && r == Got(cl.greeting, |cl.hello|) && c1.sent == []
             && c1.input.buf == [] && c1.frames == [cl.hello] && Flat(c1.input.chunks) == cl.ask + payload
             && BytesRead(i, c1) == |cl.hello|
    ensures Asking(cl, payload, i, Negotiate(Fresh(i), w))
  {
    var (s, d) := Negotiate(Fresh(i), w);
    var c1 := RecvStep(Greeting, Fresh(i)).1;
    assert d.input == c1.input && d.frames == c1.frames && |d.sent| == 1;
  }

  /** The client is patient: no receive of the run has read what the client sends only after a message that the
      server has not sent yet. */
  ghost predicate Waits(cl: Script, i: Input, w: World) {
    Patient(cl, i, Receipts(i, w))
  }

  /** A client waits for the server's messages exactly when every receive, and so every codec swap and the
      tunnel, leaves an empty buffer behind. Such a client is never refused for an overfull buffer, and its
      tunnel gets everything after the request, however its bytes are split into reads. */
  lemma LockStepLosesNothing(cl: Script, payload: seq<byte>, i: Input, w: World)
    requires WellFormed(cl) && i.buf == [] && Flat(i.chunks) == Sends(cl, payload)
    ensures Waits(cl, i, w) <==> AllEmpty(Receipts(i, w))
    ensures Waits(cl, i, w) ==> Whole(cl, payload, Serve(i, w))
  {
    AllowanceAt(cl);
    var later := (if LogsIn(cl) then cl.login else []) + (cl.ask + payload);
    ReceiptInTurn(Greeting, i, 0, Fresh(i), cl.hello, cl.greeting, later);
    var c1 := RecvStep(Greeting, Fresh(i)).1;
    OneReceiptMore(cl, i, c1, Receipts(i, w)[1..]);
    assert [c1] + Receipts(i, w)[1..] == Receipts(i, w);
    if c1.input.buf == [] {
      assert c1.frames == [cl.hello];
      if LogsIn(cl) {
        HelloThenLogin(cl, payload, i, w);
      } else {
        assert later == cl.ask + payload;
        GreetingAsks(cl, payload, i, w);
        AskInTurn(cl, payload, i, Negotiate(Fresh(i), w), w);
        assert Receipts(i, w)[1..] == AskReceipts(Negotiate(Fresh(i), w), w);
      }
    }
  }

  lemma HelloThenLogin(cl: Script, payload: seq<byte>, i: Input, w: World)
    requires WellFormed(cl) && LogsIn(cl)
    requires var (r, c1) := RecvStep(Greeting, Fresh(i));
             && r == Got(cl.greeting, |cl.hello|) && c1.sent == []
             && c1.input.buf == [] && c1.frames == [cl.hello]
             && Flat(c1.input.chunks) == cl.login + (cl.ask + payload) && BytesRead(i, c1) == |cl.hello|
    ensures Patient(cl, i, Receipts(i, w)[1..]) <==> AllEmpty(Receipts(i, w)[1..])
    ensures AllEmpty(Receipts(i, w)[1..]) ==> Whole(cl, payload, Serve(i, w))
  {
    var c1 := RecvStep(Greeting, Fresh(i)).1;
    var (e, c2) := SendStep(ServerGreeting(UsernamePassword), c1, w);
    if e.None? {
      LoginInTurn(cl, payload, i, c2, w);
      assert Receipts(i, w)[1..] == LoginReceipts(c2, w);
      assert Negotiate(Fresh(i), w) == Authenticate(c2, w);
    } else {
      assert Receipts(i, w)[1..] == [];
    }
  }

  /** A client waits if no read spans two of its messages, however each message is split into reads. */
  lemma MessageByMessageWaits(cl: Script, hello: seq<Chunk>, login: seq<Chunk>, ask: seq<Chunk>, rest: seq<Chunk>,
                              end: StreamEnd, w: World)
    requires WellFormed(cl) && Splits(hello, cl.hello) && Splits(ask, cl.ask)
    requires if LogsIn(cl) then Splits(login, cl.login) else login == []
    ensures Waits(cl, Input([], hello + (login + (ask + rest)), end), w)
  {
    var i := Input([], hello + (login + (ask + rest)), end);
    FlatConcat(hello, login + (ask + rest));
    FlatConcat(login, ask + rest);
    FlatConcat(ask, rest);
    MessageByMessageEmpties(cl, hello, login, ask, rest, end, w);
    LockStepLosesNothing(cl, Flat(rest), i, w);
  }

  lemma MessageByMessageEmpties(cl: Script, hello: seq<Chunk>, login: seq<Chunk>, ask: seq<Chunk>, rest: seq<Chunk>,
                                end: StreamEnd, w: World)
    requires WellFormed(cl) && Splits(hello, cl.hello) && Splits(ask, cl.ask)
    requires if LogsIn(cl) then Splits(login, cl.login) else login == []
    ensures AllEmpty(Receipts(Input([], hello + (login + (ask + rest)), end), w))
  {
    var i := Input([], hello + (login + (ask + rest)), end);
    RecvStepSpoken(Greeting, hello, login + (ask + rest), Fresh(i), cl.greeting);
    var c1 := RecvStep(Greeting, Fresh(i)).1;
    if LogsIn(cl) {
      var c2 := SendStep(ServerGreeting(UsernamePassword), c1, w).1;
      LoginEmpties(cl, login, ask, rest, c2, w);
    } else {
      assert login + (ask + rest) == ask + rest;
      assert Negotiate(Fresh(i), w).0.Ready? ==> Negotiate(Fresh(i), w).1.input == c1.input;
      AskEmpties(cl, ask, rest, Negotiate(Fresh(i), w), w);
    }
  }

  lemma LoginEmpties(cl: Script, login: seq<Chunk>, ask: seq<Chunk>, rest: seq<Chunk>, c: Conn, w: World)
    requires WellFormed(cl) && LogsIn(cl) && Splits(login, cl.login) && Splits(ask, cl.ask)
    requires c.input.buf == [] && c.input.chunks == login + (ask + rest)
    ensures AllEmpty(LoginReceipts(c, w))
  {
    RecvStepSpoken(Authentication, login, ask + rest, c, cl.credentials);
    AskEmpties(cl, ask, rest, Authenticate(c, w), w);
  }

  lemma AskEmpties(cl: Script, ask: seq<Chunk>, rest: seq<Chunk>, negotiated: (Status, Conn), w: World)
    requires WellFormed(cl) && Splits(ask, cl.ask)
    requires negotiated.0.Ready? ==> negotiated.1.input.buf == [] && negotiated.1.input.chunks == ask + rest
    ensures AllEmpty(AskReceipts(negotiated, w))
  {
    if negotiated.0.Ready? {
      RecvStepSpoken(Request, ask, rest, negotiated.1, cl.request);
    }
  }

  // ---------- clients that send ahead ----------

  lemma SpokenNotEmpty(ph: Phase, f: seq<byte>, m: ClientMessage)
    requires Prints(ph, f, m)
    ensures 0 < |f| <= MaxFrame(ph)
  {
    PrintedDecodes(ph, f, m);
    LimitsExact(ph, f);
  }

  /** One read for each frame before the request. */
  ghost function Opening(cl: Script): seq<Chunk>
    requires WellFormed(cl)
  {
    SpokenNotEmpty(Greeting, cl.hello, cl.greeting);
    if LogsIn(cl) then
      SpokenNotEmpty(Authentication, cl.login, cl.credentials);
      [cl.hello, cl.login]
    else [cl.hello]
  }

  /** The request and what is sent after it, in one read. */
  ghost function Ahead(cl: Script, extra: seq<byte>): Chunk
    requires WellFormed(cl)
  {
    SpokenNotEmpty(Request, cl.ask, cl.request);
    cl.ask + extra
  }

  lemma OpeningAligned(cl: Script, rest: seq<Chunk>, end: StreamEnd, w: World)
    requires WellFormed(cl)
    ensures var (s, d) := Negotiate(Fresh(Input([], Opening(cl) + rest, end)), w);
            && s != OverfullStatus && !s.Tunnelled?
            && (s.Ready? ==> d.input == Input([], rest, end))
  {
    var c := Fresh(Input([], Opening(cl) + rest, end));
    SpokenNotEmpty(Greeting, cl.hello, cl.greeting);
    FlatSingle(cl.hello);
    if LogsIn(cl) {
      SpokenNotEmpty(Authentication, cl.login, cl.credentials);
      FlatSingle(cl.login);
      assert c.input.chunks == [cl.hello] + ([cl.login] + rest);
      RecvStepSpoken(Greeting, [cl.hello], [cl.login] + rest, c, cl.greeting);
      var c1 := RecvStep(Greeting, c).1;
      var (e, c2) := SendStep(ServerGreeting(UsernamePassword), c1, w);
      RecvStepSpoken(Authentication, [cl.login], rest, c2, cl.credentials);
    } else {
      RecvStepSpoken(Greeting, [cl.hello], rest, c, cl.greeting);
    }
  }

  lemma RequestWithMore(cl: Script, extra: seq<byte>, rest: seq<Chunk>, i: Input)
    requires WellFormed(cl) && |cl.ask + extra| <= MAX_REQUEST_FRAME_SIZE
    requires i.buf == [] && i.chunks == [Ahead(cl, extra)] + rest
    ensures Recv(Request, i) == (Got(cl.request, |cl.ask|), Input(extra, rest, i.end))
  {
    PrintedDecodes(Request, cl.ask, cl.request);
    PrefixStable(Request, cl.ask, extra);
    LimitsExact(Request, []);
    var next := Input(cl.ask + extra, rest, i.end);
    assert [] + (cl.ask + extra) == cl.ask + extra && i.chunks[1..] == rest && (cl.ask + extra)[|cl.ask|..] == extra;
    assert Recv(Request, i) == Recv(Request, next);
  }

  lemma HandleWithMore(cl: Script, extra: seq<byte>, rest: seq<Chunk>, d: Conn, w: World)
    requires WellFormed(cl) && |cl.ask + extra| <= MAX_REQUEST_FRAME_SIZE
    requires d.input.buf == [] && d.input.chunks == [Ahead(cl, extra)] + rest
    ensures var (s, c) := Handle(d, w); s != OverfullStatus && c.input == Input(extra, rest, d.input.end)
  {
    RequestWithMore(cl, extra, rest, d.input);
    HandleAfterReceipt(d, w);
  }

  /** Sending ahead loses data: whatever arrives in the same read as the request, if both fit into the read
      buffer, never reaches the tunnel. */
  lemma SendingAheadLoses(cl: Script, extra: seq<byte>, rest: seq<Chunk>, end: StreamEnd, w: World)
    requires WellFormed(cl) && |cl.ask + extra| <= MAX_REQUEST_FRAME_SIZE
    ensures var (s, c) := Serve(Input([], Opening(cl) + ([Ahead(cl, extra)] + rest), end), w);
            && s != OverfullStatus
            && (s.Tunnelled? ==> Lost(c) == extra && c.input.chunks == rest)
  {
    var i := Input([], Opening(cl) + ([Ahead(cl, extra)] + rest), end);
    OpeningAligned(cl, [Ahead(cl, extra)] + rest, end, w);
    var (s, d) := Negotiate(Fresh(i), w);
    if s.Ready? {
      HandleWithMore(cl, extra, rest, d, w);
    }
  }

  ghost predicate Tunnels(chunks: seq<Chunk>, s: seq<byte>, end: StreamEnd, w: World) {
    Splits(chunks, s) && Serve(Input([], chunks, end), w).0.Tunnelled?
  }

  /** Given a stream that gets a tunnel at all: no splitting into reads that does get one loses anything exactly
      when nothing follows the request, or the request leaves no room for more in the read buffer. */
  lemma NoSplittingLosesIff(cl: Script, payload: seq<byte>, end: StreamEnd, w: World)
    requires WellFormed(cl) && exists chunks :: Tunnels(chunks, Sends(cl, payload), end, w)
    ensures (forall chunks :: Tunnels(chunks, Sends(cl, payload), end, w) ==>
               Lost(Serve(Input([], chunks, end), w).1) == [])
            <==> payload == [] || |cl.ask| == MAX_REQUEST_FRAME_SIZE
  {
    SpokenNotEmpty(Request, cl.ask, cl.request);
    if payload == [] || |cl.ask| == MAX_REQUEST_FRAME_SIZE {
      forall chunks | Tunnels(chunks, Sends(cl, payload), end, w)
        ensures Lost(Serve(Input([], chunks, end), w).1) == []
      {
        TunnelLeavesRoom(cl, payload, Input([], chunks, end), w);
      }
    } else {
      var chunks := LosingSplit(cl, payload, end, w);
    }
  }

  /** What a tunnel of this client can lose is the beginning of its payload, and only as much of it as fits
      into the read buffer beside the request. */
  lemma TunnelLeavesRoom(cl: Script, payload: seq<byte>, i: Input, w: World)
    requires WellFormed(cl) && i.buf == [] && Flat(i.chunks) == Sends(cl, payload) && Serve(i, w).0.Tunnelled?
    ensures var c := Serve(i, w).1;
            Lost(c) + Flat(c.input.chunks) == payload && |cl.ask| + |Lost(c)| <= MAX_REQUEST_FRAME_SIZE
  {
    AskIsNext(cl, payload, i, w);
    var d := Negotiate(Fresh(i), w).1;
    RecvSpoken(Request, d.input, cl.ask, cl.request, payload);
    BufferAtDecision(Request, d.input);
    RepliesKeepIntake(cl.request.dstAddress, RecvStep(Request, d).1, w);
  }

  lemma AskIsNext(cl: Script, payload: seq<byte>, i: Input, w: World)
    requires WellFormed(cl) && i.buf == [] && Flat(i.chunks) == Sends(cl, payload)
    ensures var (s, d) := Negotiate(Fresh(i), w); s.Ready? ==> Pending(d.input) == cl.ask + payload
    ensures !Negotiate(Fresh(i), w).0.Tunnelled?
  {
    var later := (if LogsIn(cl) then cl.login else []) + (cl.ask + payload);
    assert Pending(i) == cl.hello + later;
    RecvSpoken(Greeting, i, cl.hello, cl.greeting, later);
    var (r, c1) := RecvStep(Greeting, Fresh(i));
    if LogsIn(cl) {
      var c2 := SendStep(ServerGreeting(UsernamePassword), c1, w).1;
      if r.Got? {
        RecvSpoken(Authentication, c2.input, cl.login, cl.credentials, cl.ask + payload);
      }
    } else {
      assert later == cl.ask + payload;
    }
  }

  /** The request and the first byte after it in one read: that byte is lost. */
  lemma LosingSplit(cl: Script, payload: seq<byte>, end: StreamEnd, w: World) returns (chunks: seq<Chunk>)
    requires WellFormed(cl) && payload != [] && |cl.ask| < MAX_REQUEST_FRAME_SIZE
    requires exists d :: Tunnels(d, Sends(cl, payload), end, w)
    ensures Tunnels(chunks, Sends(cl, payload), end, w)
    ensures Lost(Serve(Input([], chunks, end), w).1) == [payload[0]]
  {
    var extra, rest := [payload[0]], Bytewise(payload[1..]);
    chunks := Opening(cl) + ([Ahead(cl, extra)] + rest);
    SplitAhead(cl, payload, chunks);
    SendingAheadLoses(cl, extra, rest, end, w);
    var d :| Tunnels(d, Sends(cl, payload), end, w);
    var x, y := Input([], chunks, end), Input([], d, end);
    assert Pending(x) == Sends(cl, payload) == Pending(y);
    ServeChunkingIndependent(x, y, w);
  }

  lemma SplitAhead(cl: Script, payload: seq<byte>, chunks: seq<Chunk>)
    requires WellFormed(cl) && payload != []
    requires chunks == Opening(cl) + ([Ahead(cl, [payload[0]])] + Bytewise(payload[1..]))
    ensures Splits(chunks, Sends(cl, payload))
  {
    var last := Ahead(cl, [payload[0]]);
    var tail := [last] + Bytewise(payload[1..]);
    FlatBytewise(payload[1..]);
    FlatSingle(last);
    FlatConcat([last], Bytewise(payload[1..]));
    assert payload == [payload[0]] + payload[1..];
    assert Flat(tail) == cl.ask + payload;
    FlatConcat(Opening(cl), tail);
    SpokenNotEmpty(Greeting, cl.hello, cl.greeting);
    FlatSingle(cl.hello);
    if LogsIn(cl) {
      SpokenNotEmpty(Authentication, cl.login, cl.credentials);
      FlatSingle(cl.login);
      FlatConcat([cl.hello], [cl.login]);
      assert Opening(cl) == [cl.hello] + [cl.login];
      assert (cl.hello + cl.login) + Flat(tail) == cl.hello + (cl.login + Flat(tail));
    } else {
      assert [] + Flat(tail) == Flat(tail);
    }
  }

  const LOCALHOST: Address := Ipv4([127, 0, 0, 1], 80)

  const EAGER: Script := Script([5, 1, 0], [], [5, 1, 0, 1, 127, 0, 0, 1, 0, 80],
                                ClientGreeting([NoAuthenticationRequired]), AuthRequest([], []),
                                ClientRequest(Connect, LOCALHOST))

  /** For instance: a request to 127.0.0.1:80 and one byte of payload in the same read. */
  lemma OneByteLost(w: World)
    requires w.allowNoAuth && w.sends(0).Delivered? && w.sends(1).Delivered? && w.connect(LOCALHOST).Connected?
    ensures var (s, c) := Serve(Input([], [[5, 1, 0], [5, 1, 0, 1, 127, 0, 0, 1, 0, 80, 42]], Eof), w);
            s.Tunnelled? && Lost(c) == [42] && Flat(c.input.chunks) == []
  {
    EagerWellFormed();
    var hello: Chunk := [5, 1, 0];
    var rest: seq<Chunk> := [[5, 1, 0, 1, 127, 0, 0, 1, 0, 80, 42]];
    var i := Input([], [hello] + rest, Eof);
    FlatSingle(hello);
    RecvStepSpoken(Greeting, [hello], rest, Fresh(i), EAGER.greeting);
    var (s, d) := Negotiate(Fresh(i), w);
    assert s.Ready? && d.input == Input([], rest, Eof) && |d.sent| == 1;
    assert Ahead(EAGER, [42]) == rest[0] && rest == [Ahead(EAGER, [42])] + [];
    RequestWithMore(EAGER, [42], [], d.input);
    var (r, d1) := RecvStep(Request, d);
    assert |d1.sent| == 1 && d1.input == Input([42], [], Eof);
  }

  lemma EagerWellFormed()
    ensures WellFormed(EAGER) && !LogsIn(EAGER)
  {
    var raw: seq<byte> := [0];
    assert raw[1..] == [] && KnownMethods(raw[1..]) == [];
    assert KnownMethods(raw) == [NoAuthenticationRequired] + KnownMethods(raw[1..]);
    assert GreetingPrinted(EAGER.hello, EAGER.greeting, raw);
  }
}
