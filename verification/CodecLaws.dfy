/** What the three decoders and three encoders mean on the wire (RFC 1928 and RFC 1929). */
module CodecLaws {
  import opened Wire
  import opened ServerCodecs

  // ---------- stability under arrival of more bytes ----------

  /** A decision taken on a prefix is the decision on every extension that fits. */
  lemma PrefixStable(ph: Phase, b: seq<byte>, ext: seq<byte>)
    requires |b + ext| <= MaxFrame(ph)
    requires !Parse(ph, b).Incomplete?
    ensures Parse(ph, b + ext) == Parse(ph, b)
  {
    match ph {
      case Greeting => GreetingStable(b, ext);
      case Authentication => AuthStable(b, ext);
      case Request => RequestStable(b, ext);
    }
  }

  lemma SliceOfExtended(b: seq<byte>, ext: seq<byte>, i: nat, j: nat)
    requires i <= j <= |b|
    ensures (b + ext)[i..j] == b[i..j]
  {
  }

  lemma GreetingStable(b: seq<byte>, ext: seq<byte>)
    requires |b + ext| <= MAX_GREETING_FRAME_SIZE && !ParseGreeting(b).Incomplete?
    ensures ParseGreeting(b + ext) == ParseGreeting(b)
  {
    if |b| >= 2 + b[1] as int {
      SliceOfExtended(b, ext, 2, 2 + b[1] as int);
    }
  }

  lemma AuthStable(b: seq<byte>, ext: seq<byte>)
    requires |b + ext| <= MAX_AUTH_FRAME_SIZE && !ParseAuth(b).Incomplete?
    ensures ParseAuth(b + ext) == ParseAuth(b)
  {
    var p := 2 + b[1] as int;
    if |b| > p {
      SliceOfExtended(b, ext, 2, p);
      if |b| >= p + 1 + b[p] as int {
        SliceOfExtended(b, ext, p + 1, p + 1 + b[p] as int);
      }
    }
  }

  lemma RequestStable(b: seq<byte>, ext: seq<byte>)
    requires |b + ext| <= MAX_REQUEST_FRAME_SIZE && !ParseRequest(b).Incomplete?
    ensures ParseRequest(b + ext) == ParseRequest(b)
  {
    if |b| >= 10 { SliceOfExtended(b, ext, 4, 8); }
    if |b| >= 22 { SliceOfExtended(b, ext, 4, 20); }
    if |b| >= 5 && |b| >= 7 + b[4] as int { SliceOfExtended(b, ext, 5, 5 + b[4] as int); }
  }

  /** What is incomplete was incomplete all along. */
  lemma IncompleteOnPrefixes(ph: Phase, b: seq<byte>, k: nat)
    requires Parse(ph, b).Incomplete? && k <= |b|
    ensures Parse(ph, b[..k]).Incomplete?
  {
    assert b[..k] + b[k..] == b;
    LimitsExact(ph, b);
    if !Parse(ph, b[..k]).Incomplete? {
      PrefixStable(ph, b[..k], b[k..]);
    }
  }

  /** The size limits are exact: a full buffer always forces a decision, and only an overfull one is too large. */
  lemma LimitsExact(ph: Phase, b: seq<byte>)
    ensures Parse(ph, b).Incomplete? ==> |b| < MaxFrame(ph)
    ensures Parse(ph, b) == Reject(FrameTooLarge) <==> |b| > MaxFrame(ph)
    ensures Parse(ph, b).Frame? ==> 0 < Parse(ph, b).used <= |b| <= MaxFrame(ph)
    ensures Parse(ph, b).Frame? ==> match ph
              case Greeting => Parse(ph, b).item.ClientGreeting?
              case Authentication => Parse(ph, b).item.AuthRequest?
              case Request => Parse(ph, b).item.ClientRequest?
    ensures Parse(ph, []).Incomplete?
  {
  }

  /** No smaller limit would do: one byte below it every phase can still be waiting. */
  lemma LimitsTight(ph: Phase)
    ensures exists b :: |b| == MaxFrame(ph) - 1 && Parse(ph, b).Incomplete?
  {
    var fill: seq<byte> := seq(600, _ => 0xFF);
    var b := match ph
      case Greeting => [SOCKS5_VER, 0xFF] + fill[..254]
      case Authentication => [SOCKS5_AUTH_VER, 0xFF] + fill[..510]
      case Request => [SOCKS5_VER, 0x01, SOCKS5_RSV, ATYP_DOMAIN, 0xFF] + fill[..256];
    assert |b| == MaxFrame(ph) - 1 && Parse(ph, b).Incomplete?;
  }

  /** A frame is accepted on its last byte and never earlier, whatever follows it. */
  lemma AcceptedOnLastByte(ph: Phase, b: seq<byte>, k: nat)
    requires Parse(ph, b).Frame?
    ensures k < Parse(ph, b).used ==> k <= |b| && Parse(ph, b[..k]).Incomplete?
    ensures Parse(ph, b).used <= k <= |b| ==> Parse(ph, b[..k]) == Parse(ph, b)
  {
    LimitsExact(ph, b);
    if k <= |b| {
      var front := b[..k];
      assert front + b[k..] == b;
      LimitsExact(ph, front);
      if !Parse(ph, front).Incomplete? {
        PrefixStable(ph, front, b[k..]);
      } else if Parse(ph, b).used <= k {
        var n := Parse(ph, b).used;
        FrameStandsAlone(ph, b);
        assert b[..n] + b[n..k] == front;
        PrefixStable(ph, b[..n], b[n..k]);
      }
    }
  }

  /** The bytes of a frame, cut out of the buffer, decode to the same message. */
  lemma FrameStandsAlone(ph: Phase, b: seq<byte>)
    requires Parse(ph, b).Frame?
    ensures Parse(ph, b).used <= |b|
    ensures Parse(ph, b[..Parse(ph, b).used]) == Parse(ph, b)
  {
    LimitsExact(ph, b);
    match ph {
      case Greeting => GreetingStandsAlone(b);
      case Authentication => AuthStandsAlone(b);
      case Request => RequestStandsAlone(b);
    }
  }

  lemma SliceOfFront(b: seq<byte>, n: nat, i: nat, j: nat)
    requires i <= j <= n <= |b|
    ensures b[..n][i..j] == b[i..j]
  {
  }

  lemma GreetingStandsAlone(b: seq<byte>)
    requires ParseGreeting(b).Frame?
    ensures ParseGreeting(b[..ParseGreeting(b).used]) == ParseGreeting(b)
  {
    var n := 2 + b[1] as int;
    SliceOfFront(b, n, 2, n);
  }

  lemma AuthStandsAlone(b: seq<byte>)
    requires ParseAuth(b).Frame?
    ensures ParseAuth(b[..ParseAuth(b).used]) == ParseAuth(b)
  {
    var p := 2 + b[1] as int;
    var n := p + 1 + b[p] as int;
    SliceOfFront(b, n, 2, p);
    SliceOfFront(b, n, p + 1, n);
  }

  lemma RequestStandsAlone(b: seq<byte>)
    requires ParseRequest(b).Frame? && ParseRequest(b).used <= |b|
    ensures ParseRequest(b[..ParseRequest(b).used]) == ParseRequest(b)
  {
    var n := ParseRequest(b).used;
    match b[3] {
      case 0x01 => SliceOfFront(b, n, 4, 8);
      case 0x04 => SliceOfFront(b, n, 4, 20);
      case _ => SliceOfFront(b, n, 5, 5 + b[4] as int);
    }
  }

  // ---------- parse and print are inverse ----------

  /** Section 3 of RFC 1928. */
  function PrintGreeting(raw: seq<byte>): seq<byte>
    requires 1 <= |raw| <= 255
  {
    [SOCKS5_VER, |raw|] + raw
  }

  /** Section 2 of RFC 1929. */
  function PrintAuth(username: Text, password: Text): seq<byte>
    requires 1 <= |username| <= 255 && 1 <= |password| <= 255
  {
    [SOCKS5_AUTH_VER, |username|] + username + [|password|] + password
  }

  /** The destinations a request can name: sections 4 and 5 of RFC 1928. */
  ghost predicate Requestable(a: Address) {
    match a
    case Ipv4(_, _) => true
    case Domain(name, _) => |name| <= 255 && Utf8(name)
    case Ipv6(_, _, flowInfo, scopeId) => flowInfo == 0 && scopeId == 0
  }

  /** Section 4 of RFC 1928. */
  function PrintRequest(command: Command, a: Address): seq<byte>
    requires a.Domain? ==> |a.name| <= 255
  {
    [SOCKS5_VER, CommandByte(command), SOCKS5_RSV, Atyp(a)]
    + (match a
       case Ipv4(ip, _) => ip
       case Domain(name, _) => [|name|] + name
       case Ipv6(ip, _, _, _) => ip)
    + BigEndian(a.port)
  }

  ghost predicate GreetingPrinted(b: seq<byte>, m: ClientMessage, raw: seq<byte>) {
    && 1 <= |raw| <= 255
    && b == PrintGreeting(raw)
    && m == ClientGreeting(KnownMethods(raw))
  }

  /** `b` is the wire form of `m`; for a greeting the unknown method bytes are free. */
  ghost predicate Prints(ph: Phase, b: seq<byte>, m: ClientMessage) {
    match ph
    case Greeting => exists raw :: GreetingPrinted(b, m, raw)
    case Authentication =>
      && m.AuthRequest?
      && 1 <= |m.username| <= 255 && 1 <= |m.password| <= 255
      && Utf8(m.username) && Utf8(m.password)
      && b == PrintAuth(m.username, m.password)
    case Request =>
      && m.ClientRequest? && Requestable(m.dstAddress)
      && b == PrintRequest(m.command, m.dstAddress)
  }

  /** The decoder accepts exactly the printed frames: both round trips in one equivalence. */
  lemma DecodesExactlyThePrinted(ph: Phase, b: seq<byte>, m: ClientMessage, n: nat)
    requires n <= |b|
    ensures Parse(ph, b) == Frame(m, n) <==> |b| <= MaxFrame(ph) && Prints(ph, b[..n], m)
  {
    LimitsExact(ph, b);
    if Parse(ph, b) == Frame(m, n) {
      ConsumedBytesArePrinted(ph, b, m, n);
    }
    if |b| <= MaxFrame(ph) && Prints(ph, b[..n], m) {
      PrintedDecodes(ph, b[..n], m);
      assert b[..n] + b[n..] == b;
      PrefixStable(ph, b[..n], b[n..]);
    }
  }

  lemma PrintedDecodes(ph: Phase, f: seq<byte>, m: ClientMessage)
    requires Prints(ph, f, m)
    ensures |f| <= MaxFrame(ph)
    ensures Parse(ph, f) == Frame(m, |f|)
  {
    match ph {
      case Greeting =>
        var raw :| GreetingPrinted(f, m, raw);
        assert f[2..2 + |raw|] == raw;
      case Authentication => PrintedAuthDecodes(f, m);
      case Request => PrintedRequestDecodes(f, m);
    }
  }

  lemma PrintedAuthDecodes(f: seq<byte>, m: ClientMessage)
    requires Prints(Authentication, f, m)
    ensures ParseAuth(f) == Frame(m, |f|)
  {
    var p := 2 + |m.username|;
    assert f[p] == |m.password|;
    assert f[2..p] == m.username;
    assert f[p + 1..p + 1 + |m.password|] == m.password;
  }

  lemma PrintedRequestDecodes(f: seq<byte>, m: ClientMessage)
    requires Prints(Request, f, m)
    ensures ParseRequest(f) == Frame(m, |f|)
  {
    var a := m.dstAddress;
    PortSplit(a.port);
    match a {
      case Ipv4(ip, p) =>
        assert f[4..8] == ip && f[8] == p / 0x100 && f[9] == p % 0x100;
      case Ipv6(ip, p, _, _) =>
        assert f[4..20] == ip && f[20] == p / 0x100 && f[21] == p % 0x100;
      case Domain(name, p) =>
        var end := 5 + |name|;
        assert f[4] == |name| && f[5..end] == name && f[end] == p / 0x100 && f[end + 1] == p % 0x100;
    }
  }

  lemma PortSplit(p: port)
    ensures PortOf(p / 0x100, p % 0x100) == p
  {
  }

  lemma PortJoin(high: byte, low: byte)
    ensures BigEndian(PortOf(high, low)) == [high, low]
  {
  }

  lemma ConsumedBytesArePrinted(ph: Phase, b: seq<byte>, m: ClientMessage, n: nat)
    requires Parse(ph, b) == Frame(m, n) && n <= |b|
    ensures Prints(ph, b[..n], m)
  {
    match ph {
      case Greeting =>
        var raw := b[2..n];
        assert b[..n] == PrintGreeting(raw);
        assert GreetingPrinted(b[..n], m, raw);
      case Authentication =>
        assert b[..n] == PrintAuth(m.username, m.password);
      case Request =>
        ConsumedRequestIsPrinted(b, m, n);
    }
  }

  lemma ConsumedRequestIsPrinted(b: seq<byte>, m: ClientMessage, n: nat)
    requires ParseRequest(b) == Frame(m, n) && n <= |b|
    ensures Prints(Request, b[..n], m)
  {
    PortJoin(b[n - 2], b[n - 1]);
    CommandInverse(b[1]);
    var head := [SOCKS5_VER, CommandByte(m.command), SOCKS5_RSV, Atyp(m.dstAddress)];
    assert b[..4] == head;
    assert b[n - 2..n] == BigEndian(m.dstAddress.port);
    assert b[..n] == b[..4] + b[4..n - 2] + b[n - 2..n];
    match m.dstAddress {
      case Ipv4(ip, _) => assert b[4..n - 2] == ip;
      case Ipv6(ip, _, _, _) => assert b[4..n - 2] == ip;
      case Domain(name, _) => assert b[4..n - 2] == [|name|] + name;
    }
  }

  lemma CommandInverse(b: byte)
    ensures CommandOf(b).Some? ==> CommandByte(CommandOf(b).value) == b
  {
  }

  // ---------- the offered methods ----------

  function Known(raw: seq<byte>): seq<byte> {
    if |raw| == 0 then []
    else (if MethodOf(raw[0]).Some? then [raw[0]] else []) + Known(raw[1..])
  }

  function MethodBytes(ms: seq<AuthMethod>): seq<byte> {
    if |ms| == 0 then [] else [MethodByte(ms[0])] + MethodBytes(ms[1..])
  }

  /** The decoded list is the subsequence of known method bytes: nothing known is lost, added or reordered. */
  lemma {:induction false} MethodsAreTheKnownOnes(raw: seq<byte>)
    ensures MethodBytes(KnownMethods(raw)) == Known(raw)
  {
    if |raw| > 0 {
      MethodsAreTheKnownOnes(raw[1..]);
      var rest := KnownMethods(raw[1..]);
      match MethodOf(raw[0]) {
        case Some(k) =>
          assert ([k] + rest)[1..] == rest;
        case None =>
      }
    }
  }

  /** A method is seen as offered exactly when its byte was offered. */
  lemma {:induction false} OfferedIffByteOffered(raw: seq<byte>, m: AuthMethod)
    ensures m in KnownMethods(raw) <==> MethodByte(m) in raw
  {
    if |raw| > 0 {
      OfferedIffByteOffered(raw[1..], m);
      assert raw == [raw[0]] + raw[1..];
    }
  }

  /** "Must contain at least one method" holds of the decoded list exactly when some offered byte is known. */
  lemma {:induction false} NoMethodDecodedIff(raw: seq<byte>)
    ensures KnownMethods(raw) == [] <==> forall k :: 0 <= k < |raw| ==> MethodOf(raw[k]).None?
  {
    if |raw| > 0 {
      NoMethodDecodedIff(raw[1..]);
      assert forall k :: 1 <= k < |raw| ==> raw[k] == raw[1..][k - 1];
    }
  }

  lemma GreetingWithoutMethods()
    ensures Parse(Greeting, [5, 1, 0x80]) == Frame(ClientGreeting([]), 3)
  {
    var b: seq<byte> := [5, 1, 0x80];
    assert b[2..3] == [0x80];
    NoMethodDecodedIff([0x80]);
  }

  /** A decoded name has the documented length of 1 to 255 exactly when its length byte is not zero. */
  lemma NameLengthIff(b: seq<byte>)
    requires Parse(Request, b).Frame? && b[3] == ATYP_DOMAIN
    ensures Parse(Request, b).item.dstAddress.Domain?
    ensures 1 <= |Parse(Request, b).item.dstAddress.name| <= 255 <==> b[4] != 0
  {
  }

  lemma EmptyNameDecodes()
    ensures Parse(Request, [5, 1, 0, 3, 0, 0, 80]) == Frame(ClientRequest(Connect, Domain([], 80)), 7)
  {
    var b: seq<byte> := [5, 1, 0, 3, 0, 0, 80];
    assert b[5..5] == [];
  }

  // ---------- what the server writes can be read ----------

  datatype Reading = Short | Bad | Read(message: ServerMessage, rest: seq<byte>)

  /** A client's reading of one server message: section 3 and section 6 of RFC 1928, section 2 of RFC 1929. */
  function ReadMessage(ph: Phase, b: seq<byte>): Reading {
    if ph != Request then
      if |b| < 2 then Short
      else if ph == Greeting then
        (if b[0] == SOCKS5_VER && MethodOf(b[1]).Some?
         then Read(ServerGreeting(MethodOf(b[1]).value), b[2..]) else Bad)
      else if b[0] == SOCKS5_AUTH_VER then Read(AuthResponse(StatusOf(b[1])), b[2..])
      else Bad
    else if |b| < 5 then Short
    else if b[0] != SOCKS5_VER || ReplyOf(b[1]).None? || b[2] != SOCKS5_RSV then Bad
    else
      var reply := ReplyOf(b[1]).value;
      match b[3]
      case 0x01 =>
        if |b| < 10 then Short
        else Read(ServerResponse(reply, Ipv4(b[4..8], PortOf(b[8], b[9]))), b[10..])
      case 0x04 =>
        if |b| < 22 then Short
        else Read(ServerResponse(reply, Ipv6(b[4..20], PortOf(b[20], b[21]), 0, 0)), b[22..])
      case 0x03 =>
        var end := 5 + b[4] as int;
        if |b| < end + 2 then Short
        else Read(ServerResponse(reply, Domain(b[5..end], PortOf(b[end], b[end + 1]))), b[end + 2..])
      case _ => Bad
  }

  function PhaseOfMessage(m: ServerMessage): Phase {
    match m
    case ServerGreeting(_) => Greeting
    case AuthResponse(_) => Authentication
    case ServerResponse(_, _) => Request
  }

  /** What the wire carries of a message: flow information and scope of an IPv6 address are not sent. */
  function OnTheWire(m: ServerMessage): ServerMessage {
    if m.ServerResponse? && m.bndAddress.Ipv6?
    then ServerResponse(m.reply, Ipv6(m.bndAddress.ip6, m.bndAddress.port, 0, 0))
    else m
  }

  ghost predicate NameFits(m: ServerMessage) {
    m.ServerResponse? && m.bndAddress.Domain? ==> |m.bndAddress.name| <= 255
  }

  /** A written message is read back, and the bytes after it kept, exactly when a bound name has at most 255 bytes. */
  lemma WrittenIsReadable(m: ServerMessage, rest: seq<byte>)
    ensures ReadMessage(PhaseOfMessage(m), Encoded(m) + rest) == Read(OnTheWire(m), rest) <==> NameFits(m)
  {
    var b := Encoded(m) + rest;
    if m.ServerResponse? {
      ReplyInverse(m.reply);
      match m.bndAddress {
        case Ipv4(_, _) => WrittenIpv4IsReadable(m, rest);
        case Ipv6(_, _, _, _) => WrittenIpv6IsReadable(m, rest);
        case Domain(_, _) => WrittenNameIsReadable(m, rest);
      }
    } else {
      assert b[2..] == rest;
    }
  }

  lemma ReplyInverse(r: Reply)
    ensures ReplyOf(ReplyByte(r)) == Some(r)
  {
  }

  lemma WrittenIpv4IsReadable(m: ServerMessage, rest: seq<byte>)
    requires m.ServerResponse? && m.bndAddress.Ipv4?
    ensures ReadMessage(Request, Encoded(m) + rest) == Read(m, rest)
  {
    var b, a := Encoded(m) + rest, m.bndAddress;
    ReplyInverse(m.reply);
    PortSplit(a.port);
    assert b[4..8] == a.ip4;
    assert b[8] == a.port / 0x100 && b[9] == a.port % 0x100;
    assert b[10..] == rest;
  }

  lemma WrittenIpv6IsReadable(m: ServerMessage, rest: seq<byte>)
    requires m.ServerResponse? && m.bndAddress.Ipv6?
    ensures ReadMessage(Request, Encoded(m) + rest) == Read(OnTheWire(m), rest)
  {
    var b, a := Encoded(m) + rest, m.bndAddress;
    ReplyInverse(m.reply);
    PortSplit(a.port);
    assert b[4..20] == a.ip6;
    assert b[20] == a.port / 0x100 && b[21] == a.port % 0x100;
    assert b[22..] == rest;
  }

  lemma WrittenNameIsReadable(m: ServerMessage, rest: seq<byte>)
    requires m.ServerResponse? && m.bndAddress.Domain?
    ensures ReadMessage(Request, Encoded(m) + rest) == Read(m, rest) <==> |m.bndAddress.name| <= 255
  {
    ReplyInverse(m.reply);
    if |m.bndAddress.name| <= 255 {
      ShortNameIsReadable(m, rest);
    } else {
      LongNameIsCut(m, rest);
    }
  }

  lemma ShortNameIsReadable(m: ServerMessage, rest: seq<byte>)
    requires m.ServerResponse? && m.bndAddress.Domain? && |m.bndAddress.name| <= 255
    ensures ReadMessage(Request, Encoded(m) + rest) == Read(m, rest)
  {
    var name, p := m.bndAddress.name, m.bndAddress.port;
    var b := Encoded(m) + rest;
    var end := 5 + |name|;
    ReplyInverse(m.reply);
    PortSplit(p);
    assert b == [SOCKS5_VER, ReplyByte(m.reply), SOCKS5_RSV, ATYP_DOMAIN, |name|] + name + BigEndian(p) + rest;
    assert b[5..end] == name;
    assert b[end] == p / 0x100 && b[end + 1] == p % 0x100;
    assert b[end + 2..] == rest;
  }

  lemma LongNameIsCut(m: ServerMessage, rest: seq<byte>)
    requires m.ServerResponse? && m.bndAddress.Domain? && |m.bndAddress.name| > 255
    ensures ReadMessage(Request, Encoded(m) + rest) != Read(m, rest)
  {
    var r := ReadMessage(Request, Encoded(m) + rest);
    if r.Read? && r.message.ServerResponse? && r.message.bndAddress.Domain? {
      assert |r.message.bndAddress.name| <= 255;
    }
  }
}
