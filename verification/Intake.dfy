/** Where the client's bytes go: into decoded frames, into the read buffer, or on to the tunnel. */
module Intake {
  import opened Wire
  import opened ServerCodecs
  import opened CodecLaws
  import opened FramedStream
  import opened Handshake

  function Joined(frames: seq<seq<byte>>): seq<byte> {
    if frames == [] then [] else Joined(frames[..|frames| - 1]) + frames[|frames| - 1]
  }

  function PhaseOfClient(m: ClientMessage): Phase {
    match m
    case ClientGreeting(_) => Greeting
    case AuthRequest(_, _) => Authentication
    case ClientRequest(_, _) => Request
  }

  /** Every message received is what its own frame decodes to. */
  ghost predicate FramesDecode(c: Conn) {
    && |c.frames| == |c.got|
    && forall k :: 0 <= k < |c.got| ==>
         Parse(PhaseOfClient(c.got[k]), c.frames[k]) == Frame(c.got[k], |c.frames[k]|)
  }

  /** How many chunks have been read since the input was `i`. */
  function ReadSince(i: Input, c: Conn): int {
    |i.chunks| - |c.input.chunks|
  }

  /** `c` has read a whole number of chunks of `i`, and the last of them was needed for the last frame. */
  ghost predicate ReadNoFurther(i: Input, c: Conn) {
    var j := ReadSince(i, c);
    && 0 <= j && c.input.chunks == i.chunks[j..]
    && |Joined(c.frames)| + |c.input.buf| == |Flat(i.chunks[..j])|
    && (j > 0 ==> |Flat(i.chunks[..j - 1])| < |Joined(c.frames)|)
  }

  /** `c` accounts for every byte of `i`, which had an empty buffer. */
  ghost predicate Accounts(i: Input, c: Conn) {
    && Joined(c.frames) + Pending(c.input) == Flat(i.chunks)
    && c.input.end == i.end
    && FramesDecode(c)
  }

  // ---------- one receive ----------

  lemma FlatTake(chunks: seq<Chunk>, a: nat, b: nat)
    requires a <= b <= |chunks|
    ensures Flat(chunks[..b]) == Flat(chunks[..a]) + Flat(chunks[a..b])
    ensures |Flat(chunks[..a])| + (b - a) <= |Flat(chunks[..b])|
  {
    assert chunks[..b] == chunks[..a] + chunks[a..b];
    FlatConcat(chunks[..a], chunks[a..b]);
    FlatNonempty(chunks[a..b]);
  }

  lemma FlatHead(chunks: seq<Chunk>, j: nat)
    requires 1 <= j <= |chunks|
    ensures |Flat(chunks[..j])| == |chunks[0]| + |Flat(chunks[1..][..j - 1])|
  {
    assert chunks[..j][0] == chunks[0] && chunks[..j][1..] == chunks[1..][..j - 1];
  }

  /** What a receive from `i` that ended in `o` has read: whole chunks, the last of them needed. */
  ghost predicate ReadJustEnough(i: Input, r: Received, o: Input) {
    var j := |i.chunks| - |o.chunks|;
    && 0 <= j && o.chunks == i.chunks[j..] && o.end == i.end
    && (r.Got? ==>
          && r.used + |o.buf| == |i.buf| + |Flat(i.chunks[..j])|
          && (j > 0 ==> |i.buf| + |Flat(i.chunks[..j - 1])| < r.used))
  }

  /** A receive reads chunks only while the frame is incomplete. */
  lemma {:induction false} RecvReadsJustEnough(ph: Phase, i: Input)
    ensures ReadJustEnough(i, Recv(ph, i).0, Recv(ph, i).1)
    decreases |i.chunks|
  {
    if Parse(ph, i.buf).Incomplete? && i.chunks != [] {
      var next := i.(buf := i.buf + i.chunks[0], chunks := i.chunks[1..]);
      RecvReadsJustEnough(ph, next);
      RecvWithoutReading(ph, next);
      if Recv(ph, next).0.Got? && Recv(ph, next).1.chunks == next.chunks {
        NeededTheChunk(ph, i);
      }
      OneChunkMore(i, next, Recv(ph, next).0, Recv(ph, next).1);
    } else {
      RecvWithoutReading(ph, i);
      assert i.chunks[0..] == i.chunks && i.chunks[..0] == [];
    }
  }

  /** A receive reads at least one chunk exactly when the buffer holds no decision and there is one. */
  lemma {:induction false} RecvWithoutReading(ph: Phase, i: Input)
    ensures var (r, o) := Recv(ph, i);
            && |o.chunks| <= |i.chunks|
            && (o.chunks == i.chunks <==> !Parse(ph, i.buf).Incomplete? || i.chunks == [])
            && (o.chunks == i.chunks ==>
                  o.end == i.end &&
                  (r.Got? ==> Parse(ph, i.buf) == Frame(r.message, r.used) && r.used + |o.buf| == |i.buf|))
    decreases |i.chunks|
  {
    LimitsExact(ph, i.buf);
    if Parse(ph, i.buf).Incomplete? && i.chunks != [] {
      RecvWithoutReading(ph, i.(buf := i.buf + i.chunks[0], chunks := i.chunks[1..]));
    }
  }

  lemma OneChunkMore(i: Input, next: Input, r: Received, o: Input)
    requires i.chunks != [] && next == i.(buf := i.buf + i.chunks[0], chunks := i.chunks[1..])
    requires ReadJustEnough(next, r, o)
    requires r.Got? && o.chunks == next.chunks ==> |i.buf| < r.used
    ensures ReadJustEnough(i, r, o)
  {
    var j := |i.chunks| - |o.chunks|;
    FlatHead(i.chunks, j);
    if j > 1 {
      FlatHead(i.chunks, j - 1);
    }
  }

  /** A frame found with the next chunk uses more than what was there before it. */
  lemma NeededTheChunk(ph: Phase, i: Input)
    requires Parse(ph, i.buf).Incomplete? && i.chunks != []
    requires Parse(ph, i.buf + i.chunks[0]).Frame?
    ensures Parse(ph, i.buf + i.chunks[0]).used > |i.buf|
  {
    var b := i.buf + i.chunks[0];
    assert b[..|i.buf|] == i.buf;
    AcceptedOnLastByte(ph, b, |i.buf|);
  }

  lemma RecvStepAccounts(ph: Phase, i: Input, c: Conn)
    requires Accounts(i, c)
    ensures Accounts(i, RecvStep(ph, c).1)
  {
    RecvSeesWholeStream(ph, c.input);
    var (r, d) := RecvStep(ph, c);
    if r.Got? {
      ReceivedFrameDecodes(ph, c.input, r.message, r.used);
      FrameTaken(i, c, d, r.message, r.used);
    }
  }

  /** Moving a frame from the bytes to come to the frames taken changes nothing in the account. */
  lemma FrameTaken(i: Input, c: Conn, d: Conn, m: ClientMessage, n: nat)
    requires Accounts(i, c) && n <= |Pending(c.input)|
    requires Parse(PhaseOfClient(m), Pending(c.input)[..n]) == Frame(m, n)
    requires Pending(d.input) == Pending(c.input)[n..] && d.input.end == c.input.end
    requires d.frames == c.frames + [Pending(c.input)[..n]] && d.got == c.got + [m]
    ensures Accounts(i, d)
  {
    var s := Pending(c.input);
    assert s[..n] + s[n..] == s;
    FrameJoins(c, d, s[..n], s[n..]);
    FrameAdded(c, d, s[..n], m);
  }

  lemma ReceivedFrameDecodes(ph: Phase, i: Input, m: ClientMessage, n: nat)
    requires Recv(ph, i).0 == Got(m, n) && n <= |Pending(i)|
    ensures Parse(PhaseOfClient(m), Pending(i)[..n]) == Frame(m, n)
  {
    RecvSeesWholeStream(ph, i);
    var s := Pending(i);
    var window := s[..Min(|s|, MaxFrame(ph))];
    LimitsExact(ph, window);
    FrameStandsAlone(ph, window);
    assert PhaseOfClient(m) == ph && window[..n] == s[..n];
  }

  lemma FrameJoins(c: Conn, d: Conn, frame: seq<byte>, rest: seq<byte>)
    requires d.frames == c.frames + [frame]
    ensures Joined(d.frames) + rest == Joined(c.frames) + (frame + rest)
    ensures |Joined(d.frames)| == |Joined(c.frames)| + |frame|
  {
    assert d.frames[..|d.frames| - 1] == c.frames;
  }

  lemma FrameAdded(c: Conn, d: Conn, frame: seq<byte>, m: ClientMessage)
    requires FramesDecode(c) && Parse(PhaseOfClient(m), frame) == Frame(m, |frame|)
    requires d.frames == c.frames + [frame] && d.got == c.got + [m]
    ensures FramesDecode(d)
  {
    forall k | 0 <= k < |d.got|
      ensures Parse(PhaseOfClient(d.got[k]), d.frames[k]) == Frame(d.got[k], |d.frames[k]|)
    {
      if k < |c.got| {
        assert d.got[k] == c.got[k] && d.frames[k] == c.frames[k];
      }
    }
  }

  lemma RecvStepReadsNoFurther(ph: Phase, i: Input, c: Conn)
    requires ReadNoFurther(i, c)
    ensures var (r, d) := RecvStep(ph, c); r.Got? ==> ReadNoFurther(i, d)
  {
    RecvReadsJustEnough(ph, c.input);
    RecvSeesWholeStream(ph, c.input);
    var (r, d) := RecvStep(ph, c);
    if r.Got? {
      var s := Pending(c.input);
      FrameJoins(c, d, s[..r.used], s[r.used..]);
      ChunksAddUp(i, c, d, r);
    }
  }

  lemma ChunksAddUp(i: Input, c: Conn, d: Conn, r: Received)
    requires ReadNoFurther(i, c) && ReadJustEnough(c.input, r, d.input) && r.Got? && 0 < r.used
    requires |Joined(d.frames)| == |Joined(c.frames)| + r.used
    ensures ReadNoFurther(i, d)
  {
    var a, b := ReadSince(i, c), ReadSince(i, d);
    assert c.input.chunks[..b - a] == i.chunks[a..b];
    FlatTake(i.chunks, a, b);
    if b > a {
      assert c.input.chunks[..b - a - 1] == i.chunks[a..b - 1];
      FlatTake(i.chunks, a, b - 1);
    }
  }

  // ---------- the whole run ----------

  ghost predicate SameIntake(c: Conn, d: Conn) {
    d.input == c.input && d.frames == c.frames && d.got == c.got
  }

  lemma RepliesKeepIntake(dst: Address, c: Conn, w: World)
    ensures SameIntake(c, HandleConnect(dst, c, w).1)
    ensures SameIntake(c, HandleBind(c, w).1)
  {
  }

  lemma IntakeDecides(i: Input, c: Conn, d: Conn)
    requires SameIntake(c, d)
    ensures Accounts(i, c) <==> Accounts(i, d)
    ensures ReadNoFurther(i, c) <==> ReadNoFurther(i, d)
  {
  }

  lemma RecvStepIntake(ph: Phase, i: Input, c: Conn)
    requires Accounts(i, c) && ReadNoFurther(i, c)
    ensures var (r, d) := RecvStep(ph, c); Accounts(i, d) && (r.Got? ==> ReadNoFurther(i, d))
  {
    RecvStepAccounts(ph, i, c);
    RecvStepReadsNoFurther(ph, i, c);
  }

  lemma AuthenticateTakes(c: Conn, w: World)
    ensures SameIntake(RecvStep(Authentication, c).1, Authenticate(c, w).1)
    ensures Authenticate(c, w).0.Ready? ==> RecvStep(Authentication, c).0.Got?
  {
  }

  /** Negotiation takes one frame or, if it goes on to authentication, two. */
  lemma NegotiateTakes(c: Conn, w: World)
    ensures var (s, d) := Negotiate(c, w);
            var (r1, c1) := RecvStep(Greeting, c);
            var (r2, c2) := RecvStep(Authentication, c1);
            || (SameIntake(c1, d) && (s.Ready? ==> r1.Got?))
            || (r1.Got? && SameIntake(c2, d) && (s.Ready? ==> r2.Got?))
  {
    var (r, c1) := RecvStep(Greeting, c);
    if r.Got? && UsernamePassword in r.message.methods {
      var (e, c2) := SendStep(ServerGreeting(UsernamePassword), c1, w);
      if e.None? {
        AuthenticateTakes(c2, w);
      }
    }
  }

  lemma NegotiateIntake(i: Input, c: Conn, w: World)
    requires Accounts(i, c) && ReadNoFurther(i, c)
    ensures var (s, d) := Negotiate(c, w); Accounts(i, d) && (s.Ready? ==> ReadNoFurther(i, d))
  {
    NegotiateTakes(c, w);
    var d := Negotiate(c, w).1;
    var (r1, c1) := RecvStep(Greeting, c);
    RecvStepIntake(Greeting, i, c);
    if SameIntake(c1, d) {
      IntakeDecides(i, c1, d);
    } else {
      RecvStepIntake(Authentication, i, c1);
      IntakeDecides(i, RecvStep(Authentication, c1).1, d);
    }
  }

  lemma HandleTakes(c: Conn, w: World)
    ensures SameIntake(RecvStep(Request, c).1, Handle(c, w).1)
    ensures Handle(c, w).0.Tunnelled? ==> RecvStep(Request, c).0.Got?
  {
    var (r, c1) := RecvStep(Request, c);
    if r.Got? {
      RepliesKeepIntake(r.message.dstAddress, c1, w);
    }
  }

  lemma HandleIntake(i: Input, c: Conn, w: World)
    requires Accounts(i, c) && ReadNoFurther(i, c)
    ensures var (s, d) := Handle(c, w); Accounts(i, d) && (s.Tunnelled? ==> ReadNoFurther(i, d))
  {
    RecvStepIntake(Request, i, c);
    HandleTakes(c, w);
    IntakeDecides(i, RecvStep(Request, c).1, Handle(c, w).1);
  }

  /** Conservation: whatever happens, the client's bytes are the decoded frames, in order, then the read
      buffer, then what is still unread; and each frame decodes to the message that was acted upon. */
  lemma BytesConserved(chunks: seq<Chunk>, end: StreamEnd, w: World)
    ensures var (s, c) := Serve(Input([], chunks, end), w);
            && Joined(c.frames) + c.input.buf + Flat(c.input.chunks) == Flat(chunks)
            && FramesDecode(c)
            && (s.Tunnelled? ==> ReadNoFurther(Input([], chunks, end), c))
  {
    var d := Serve(Input([], chunks, end), w).1;
    ServeIntake(Input([], chunks, end), w);
    InOrder(Joined(d.frames), d.input);
  }

  lemma InOrder(taken: seq<byte>, i: Input)
    ensures taken + i.buf + Flat(i.chunks) == taken + Pending(i)
  {
  }

  lemma ServeIntake(i: Input, w: World)
    requires i.buf == []
    ensures var (s, d) := Serve(i, w); Accounts(i, d) && (s.Tunnelled? ==> ReadNoFurther(i, d))
  {
    FreshIntake(i);
    NegotiateIntake(i, Fresh(i), w);
    var (s, c) := Negotiate(Fresh(i), w);
    if s.Ready? {
      HandleIntake(i, c, w);
    }
  }

  lemma FreshIntake(i: Input)
    requires i.buf == []
    ensures Accounts(i, Fresh(i)) && ReadNoFurther(i, Fresh(i))
  {
    assert i.chunks[0..] == i.chunks && i.chunks[..0] == [];
  }

  /** The bytes that a tunnel never carries: they were read ahead of it and dropped with the read buffer. */
  function Lost(c: Conn): seq<byte> {
    c.input.buf
  }

  /** A tunnel starts right after the request frame exactly when some read ended there. */
  lemma TunnelLosesNothingIff(chunks: seq<Chunk>, end: StreamEnd, w: World)
    requires Serve(Input([], chunks, end), w).0.Tunnelled?
    ensures var c := Serve(Input([], chunks, end), w).1; var offset := |Joined(c.frames)|;
            && offset <= |Flat(chunks)|
            && (Flat(c.input.chunks) == Flat(chunks)[offset..] <==> Lost(c) == [])
            && (Lost(c) == [] <==> ReadEndsAt(chunks, offset))
  {
    BytesConserved(chunks, end, w);
    var c := Serve(Input([], chunks, end), w).1;
    LeftOver(Joined(c.frames), c.input.buf, Flat(c.input.chunks));
    EmptyBufferIff(Input([], chunks, end), c);
  }

  lemma LeftOver(taken: seq<byte>, buf: seq<byte>, unread: seq<byte>)
    ensures unread == (taken + buf + unread)[|taken|..] <==> buf == []
  {
    assert (taken + buf + unread)[|taken|..] == buf + unread;
  }

  ghost predicate ReadEndsAt(chunks: seq<Chunk>, offset: nat) {
    exists k :: 0 <= k <= |chunks| && |Flat(chunks[..k])| == offset
  }

  lemma EmptyBufferIff(i: Input, c: Conn)
    requires ReadNoFurther(i, c)
    ensures c.input.buf == [] <==> ReadEndsAt(i.chunks, |Joined(c.frames)|)
  {
    var j, offset := ReadSince(i, c), |Joined(c.frames)|;
    if c.input.buf == [] {
      assert |Flat(i.chunks[..j])| == offset;
    }
    forall k | 0 <= k <= |i.chunks| && |Flat(i.chunks[..k])| == offset
      ensures c.input.buf == []
    {
      if k < j {
        FlatTake(i.chunks, k, j - 1);
      } else {
        FlatTake(i.chunks, j, k);
      }
    }
  }

  /** The chunks `own` carry exactly one well-formed frame of phase `ph`. */
  ghost predicate Speaks(ph: Phase, own: seq<Chunk>, m: ClientMessage) {
    Prints(ph, Flat(own), m)
  }

  lemma RecvStepSpoken(ph: Phase, own: seq<Chunk>, rest: seq<Chunk>, c: Conn, m: ClientMessage)
    requires Speaks(ph, own, m)
    requires c.input.buf == [] && c.input.chunks == own + rest
    ensures RecvStep(ph, c) ==
            (Got(m, |Flat(own)|),
             c.(input := Input([], rest, c.input.end), frames := c.frames + [Flat(own)], got := c.got + [m]))
  {
    PrintedDecodes(ph, Flat(own), m);
    assert [] + Flat(own) == Flat(own);
    RecvAlignedFrame(ph, [], own, rest, c.input.end, m);
    FlatConcat(own, rest);
    assert Pending(c.input)[..|Flat(own)|] == Flat(own);
  }
}
