/** The server's byte stream as its client reads it. */
module ClientView {
  import opened Wire
  import opened ServerCodecs
  import opened CodecLaws

  /** The phase a client is in after a server message. */
  function NextPhase(m: ServerMessage): Phase {
    if m == ServerGreeting(UsernamePassword) then Authentication else Request
  }

  /** A client's reading of the server's byte stream: messages in order, and what does not make a message. */
  function ReadTranscript(ph: Phase, b: seq<byte>): (seq<ServerMessage>, seq<byte>)
    decreases |b|
  {
    match ReadMessage(ph, b)
    case Read(m, rest) =>
      var (ms, left) := ReadTranscript(NextPhase(m), rest);
      ([m] + ms, left)
    case _ => ([], b)
  }

  function AllEncoded(ms: seq<ServerMessage>): seq<byte> {
    if ms == [] then [] else Encoded(ms[0]) + AllEncoded(ms[1..])
  }

  function AllOnTheWire(ms: seq<ServerMessage>): seq<ServerMessage> {
    if ms == [] then [] else [OnTheWire(ms[0])] + AllOnTheWire(ms[1..])
  }

  /** Each message belongs to the phase its predecessor leads to, and no name is too long to write. */
  ghost predicate WellPhased(ph: Phase, ms: seq<ServerMessage>)
    decreases |ms|
  {
    ms == [] || (PhaseOfMessage(ms[0]) == ph && NameFits(ms[0]) && WellPhased(NextPhase(ms[0]), ms[1..]))
  }

  function LastPhase(ph: Phase, ms: seq<ServerMessage>): Phase
    decreases |ms|
  {
    if ms == [] then ph else LastPhase(NextPhase(ms[0]), ms[1..])
  }

  /** Reading inverts writing, message by message, and goes on with whatever follows. */
  lemma {:induction false} ReadInvertsWrite(ph: Phase, ms: seq<ServerMessage>, tail: seq<byte>)
    requires WellPhased(ph, ms)
    ensures var (rs, left) := ReadTranscript(LastPhase(ph, ms), tail);
            ReadTranscript(ph, AllEncoded(ms) + tail) == (AllOnTheWire(ms) + rs, left)
    decreases |ms|
  {
    if ms == [] {
      assert [] + tail == tail;
      assert AllOnTheWire(ms) + ReadTranscript(ph, tail).0 == ReadTranscript(ph, tail).0;
    } else {
      var rest := AllEncoded(ms[1..]) + tail;
      assert AllEncoded(ms) + tail == Encoded(ms[0]) + rest;
      WrittenIsReadable(ms[0], rest);
      ReadInvertsWrite(NextPhase(ms[0]), ms[1..], tail);
      assert NextPhase(OnTheWire(ms[0])) == NextPhase(ms[0]);
      var (rs, left) := ReadTranscript(LastPhase(ph, ms), tail);
      assert [OnTheWire(ms[0])] + (AllOnTheWire(ms[1..]) + rs) == AllOnTheWire(ms) + rs;
    }
  }

  lemma AppendPhased(ph: Phase, ms: seq<ServerMessage>, m: ServerMessage)
    requires WellPhased(ph, ms) && PhaseOfMessage(m) == LastPhase(ph, ms) && NameFits(m)
    ensures WellPhased(ph, ms + [m]) && LastPhase(ph, ms + [m]) == NextPhase(m)
    ensures AllEncoded(ms + [m]) == AllEncoded(ms) + Encoded(m)
  {
    PhasesAppend(ph, ms, m);
    EncodedAppend(ms, m);
  }

  lemma {:induction false} PhasesAppend(ph: Phase, ms: seq<ServerMessage>, m: ServerMessage)
    requires WellPhased(ph, ms) && PhaseOfMessage(m) == LastPhase(ph, ms) && NameFits(m)
    ensures WellPhased(ph, ms + [m]) && LastPhase(ph, ms + [m]) == NextPhase(m)
    decreases |ms|
  {
    if ms == [] {
      assert ms + [m] == [m];
    } else {
      assert (ms + [m])[0] == ms[0] && (ms + [m])[1..] == ms[1..] + [m];
      PhasesAppend(NextPhase(ms[0]), ms[1..], m);
    }
  }

  lemma {:induction false} EncodedAppend(ms: seq<ServerMessage>, m: ServerMessage)
    ensures AllEncoded(ms + [m]) == AllEncoded(ms) + Encoded(m)
  {
    if ms == [] {
      assert ms + [m] == [m];
      assert AllEncoded([m]) == Encoded(m) + [];
    } else {
      assert (ms + [m])[0] == ms[0] && (ms + [m])[1..] == ms[1..] + [m];
      EncodedAppend(ms[1..], m);
      Regroup(Encoded(ms[0]), AllEncoded(ms[1..]), Encoded(m));
    }
  }

  lemma Regroup(a: seq<byte>, b: seq<byte>, c: seq<byte>)
    ensures a + (b + c) == (a + b) + c
  {
  }
}
