/** The framed client stream: a read buffer in front of a socket that delivers bytes in chunks. */
module FramedStream {
  import opened Wire
  import opened Errors
  import opened ServerCodecs
  import opened CodecLaws

  /** One read's worth of bytes; a read of zero bytes is the end of the stream. */
  type Chunk = s: seq<byte> | 0 < |s| witness [0]

  /** What a read meets after the last chunk. */
  datatype StreamEnd = Eof | ReadError(kind: IoKind)

  /** Read buffer, chunks not read yet, and what follows them. */
  datatype Input = Input(buf: seq<byte>, chunks: seq<Chunk>, end: StreamEnd)

  datatype Received = Got(message: ClientMessage, used: nat) | Failed(error: Socks5Error)

  /** The error of a stream that ends inside a frame: an empty buffer at the end of the stream is a plain disconnect. */
  function AtEnd(buf: seq<byte>, end: StreamEnd): Socks5Error {
    match end
    case Eof => Io(if buf == [] then KindUnexpectedEof else KindOther)
    case ReadError(k) => Io(k)
  }

  predicate OfPhase(ph: Phase, m: ClientMessage) {
    match ph
    case Greeting => m.ClientGreeting?
    case Authentication => m.AuthRequest?
    case Request => m.ClientRequest?
  }

  /** Decode, and read another chunk as long as the frame is incomplete. */
  function Recv(ph: Phase, i: Input): (res: (Received, Input))
    ensures res.0.Got? ==> OfPhase(ph, res.0.message)
    ensures |res.1.chunks| <= |i.chunks|
    decreases |i.chunks|
  {
    match Parse(ph, i.buf)
    case Frame(m, n) => LimitsExact(ph, i.buf); (Got(m, n), i.(buf := i.buf[n..]))
    case Reject(e) => (Failed(Protocol(e)), i)
    case Incomplete =>
      if i.chunks == [] then (Failed(AtEnd(i.buf, i.end)), i)
      else Recv(ph, i.(buf := i.buf + i.chunks[0], chunks := i.chunks[1..]))
  }

  function Flat(chunks: seq<Chunk>): seq<byte> {
    if chunks == [] then [] else chunks[0] + Flat(chunks[1..])
  }

  /** The bytes that have arrived but are not decoded, and those still to arrive. */
  function Pending(i: Input): seq<byte> {
    i.buf + Flat(i.chunks)
  }

  const TooLarge: Received := Failed(Protocol(FrameTooLarge))

  function Min(a: nat, b: nat): nat {
    if a <= b then a else b
  }

  /** What one decode of the whole stream, cut at the frame limit, would report. */
  function WholeStream(ph: Phase, s: seq<byte>, end: StreamEnd): Received {
    match Parse(ph, s[..Min(|s|, MaxFrame(ph))])
    case Frame(m, n) => Got(m, n)
    case Reject(e) => Failed(Protocol(e))
    case Incomplete => Failed(AtEnd(s, end))
  }

  lemma DropFront(a: seq<byte>, b: seq<byte>, n: nat)
    requires n <= |a|
    ensures (a + b)[n..] == a[n..] + b
  {
  }

  /** Chunking is invisible: unless a read overfills the buffer, receiving gives what the whole stream gives,
      and takes exactly the frame's bytes off it. */
  lemma {:induction false} RecvSeesWholeStream(ph: Phase, i: Input)
    ensures var (r, j) := Recv(ph, i); r == TooLarge || r == WholeStream(ph, Pending(i), i.end)
    ensures var (r, j) := Recv(ph, i);
            && j.end == i.end
            && Pending(j) == (if r.Got? && r.used <= |Pending(i)| then Pending(i)[r.used..] else Pending(i))
    ensures var (r, j) := Recv(ph, i); r.Got? ==> 0 < r.used <= |Pending(i)|
    decreases |i.chunks|
  {
    var s := Pending(i);
    var window := s[..Min(|s|, MaxFrame(ph))];
    LimitsExact(ph, i.buf);
    match Parse(ph, i.buf) {
      case Frame(m, n) =>
        assert window == i.buf + window[|i.buf|..];
        PrefixStable(ph, i.buf, window[|i.buf|..]);
        DropFront(i.buf, Flat(i.chunks), n);
      case Reject(e) =>
        if e != FrameTooLarge {
          assert window == i.buf + window[|i.buf|..];
          PrefixStable(ph, i.buf, window[|i.buf|..]);
        }
      case Incomplete =>
        if i.chunks == [] {
          assert s == i.buf && window == i.buf;
        } else {
          var next := i.(buf := i.buf + i.chunks[0], chunks := i.chunks[1..]);
          assert Pending(next) == s;
          RecvSeesWholeStream(ph, next);
        }
    }
  }

  /** A stream that ends before its frame does: a disconnect if nothing of the frame has come, a truncated frame
      otherwise, or the read error that ended it. */
  lemma StreamEndTold(ph: Phase, i: Input)
    requires Parse(ph, Pending(i)).Incomplete?
    ensures Recv(ph, i).0 ==
            match i.end
            case ReadError(k) => Failed(Io(k))
            case Eof => Failed(Io(if Pending(i) == [] then KindUnexpectedEof else KindOther))
  {
    LimitsExact(ph, Pending(i));
    ShortStreamNeverTooLarge(ph, i);
    RecvSeesWholeStream(ph, i);
    assert Pending(i)[..|Pending(i)|] == Pending(i);
  }

  /** A stream that fits into the limit cannot overfill the buffer. */
  lemma {:induction false} ShortStreamNeverTooLarge(ph: Phase, i: Input)
    requires |Pending(i)| <= MaxFrame(ph)
    ensures Recv(ph, i).0 != TooLarge
    decreases |i.chunks|
  {
    LimitsExact(ph, i.buf);
    if Parse(ph, i.buf).Incomplete? && i.chunks != [] {
      var next := i.(buf := i.buf + i.chunks[0], chunks := i.chunks[1..]);
      assert Pending(next) == Pending(i);
      ShortStreamNeverTooLarge(ph, next);
    }
  }

  /** The slowest arrival: one byte per read. */
  function Bytewise(s: seq<byte>): seq<Chunk> {
    seq(|s|, k requires 0 <= k < |s| => [s[k]])
  }

  lemma {:induction false} FlatBytewise(s: seq<byte>)
    ensures Flat(Bytewise(s)) == s
  {
    if s != [] {
      assert Bytewise(s)[1..] == Bytewise(s[1..]);
      FlatBytewise(s[1..]);
    }
  }

  /** One byte at a time never overfills the buffer, however long the stream. */
  lemma {:induction false} BytewiseNeverTooLarge(ph: Phase, buf: seq<byte>, s: seq<byte>, end: StreamEnd)
    requires |buf| <= MaxFrame(ph)
    ensures Recv(ph, Input(buf, Bytewise(s), end)).0 != TooLarge
    decreases |s|
  {
    LimitsExact(ph, buf);
    if Parse(ph, buf).Incomplete? && s != [] {
      assert Bytewise(s)[1..] == Bytewise(s[1..]);
      BytewiseNeverTooLarge(ph, buf + [s[0]], s[1..], end);
    }
  }

  lemma FlatSingle(s: Chunk)
    ensures Flat([s]) == s
  {
    assert Flat([s]) == s + Flat([]);
  }

  lemma {:induction false} FlatConcat(a: seq<Chunk>, b: seq<Chunk>)
    ensures Flat(a + b) == Flat(a) + Flat(b)
  {
    if a == [] {
      assert a + b == b;
    } else {
      assert (a + b)[1..] == a[1..] + b;
      FlatConcat(a[1..], b);
    }
  }

  lemma {:induction false} FlatNonempty(chunks: seq<Chunk>)
    ensures |chunks| <= |Flat(chunks)|
  {
    if chunks != [] {
      FlatNonempty(chunks[1..]);
    }
  }

  /** All at once: a longer stream than the limit overfills the buffer on its first read. */
  lemma AllAtOnceTooLarge(ph: Phase, s: Chunk, end: StreamEnd)
    requires |s| > MaxFrame(ph)
    ensures Recv(ph, Input([], [s], end)).0 == TooLarge
  {
    LimitsExact(ph, []);
    assert [] + s == s;
    var i := Input(s, [], end);
    assert Recv(ph, i).0 == TooLarge;
    assert Input([], [s], end).(buf := [] + s, chunks := [s][1..]) == i;
  }

  ghost predicate Splits(chunks: seq<Chunk>, s: seq<byte>) {
    Flat(chunks) == s
  }

  /** One receive is independent of chunking exactly when the stream fits into the frame limit. */
  lemma RecvChunkingIndependentIff(ph: Phase, s: seq<byte>, end: StreamEnd)
    ensures (forall c, d :: Splits(c, s) && Splits(d, s) ==>
               Recv(ph, Input([], c, end)).0 == Recv(ph, Input([], d, end)).0)
            <==> |s| <= MaxFrame(ph)
  {
    if |s| <= MaxFrame(ph) {
      forall c, d | Splits(c, s) && Splits(d, s)
        ensures Recv(ph, Input([], c, end)).0 == Recv(ph, Input([], d, end)).0
      {
        var x, y := Input([], c, end), Input([], d, end);
        assert Pending(x) == s == Pending(y);
        ShortStreamNeverTooLarge(ph, x);
        ShortStreamNeverTooLarge(ph, y);
        RecvSeesWholeStream(ph, x);
        RecvSeesWholeStream(ph, y);
      }
    } else {
      FlatSingle(s);
      FlatBytewise(s);
      AllAtOnceTooLarge(ph, s, end);
      BytewiseNeverTooLarge(ph, [], s, end);
      assert Splits([s], s) && Splits(Bytewise(s), s);
    }
  }

  /** Chunks that carry exactly one frame are consumed whole, and nothing behind them is touched. */
  lemma {:induction false} RecvAlignedFrame(ph: Phase, buf: seq<byte>, own: seq<Chunk>, rest: seq<Chunk>, end: StreamEnd, m: ClientMessage)
    requires Parse(ph, buf + Flat(own)) == Frame(m, |buf + Flat(own)|)
    ensures Recv(ph, Input(buf, own + rest, end)) == (Got(m, |buf + Flat(own)|), Input([], rest, end))
    decreases |own|
  {
    var f := buf + Flat(own);
    LimitsExact(ph, f);
    if own == [] {
      assert f == buf && own + rest == rest;
    } else {
      FlatNonempty(own);
      assert f[..|buf|] == buf;
      AcceptedOnLastByte(ph, f, |buf|);
      assert (own + rest)[0] == own[0] && (own + rest)[1..] == own[1..] + rest;
      assert (buf + own[0]) + Flat(own[1..]) == f;
      RecvAlignedFrame(ph, buf + own[0], own[1..], rest, end, m);
    }
  }
}
