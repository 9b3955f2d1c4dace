/** The three server codecs: decoders over a growable buffer and encoders that append to one. */
module ServerCodecs {
  import opened Wire

  /** A growable byte buffer whose front can be dropped. */
  class BytesMut {
    var bytes: seq<byte>

    constructor ()
      ensures bytes == []
    {
      bytes := [];
    }

    method Advance(n: nat)
      requires n <= |bytes|
      modifies this
      ensures bytes == old(bytes)[n..]
    {
      bytes := bytes[n..];
    }

    method PutU8(b: byte)
      modifies this
      ensures bytes == old(bytes) + [b]
    {
      bytes := bytes + [b];
    }

    method PutSlice(s: seq<byte>)
      modifies this
      ensures bytes == old(bytes) + s
    {
      bytes := bytes + s;
    }

    method PutU16(p: port)
      modifies this
      ensures bytes == old(bytes) + BigEndian(p)
    {
      bytes := bytes + [p / 0x100, p % 0x100];
    }
  }

  function BigEndian(p: port): seq<byte> {
    [p / 0x100, p % 0x100]
  }

  function PortOf(high: byte, low: byte): port {
    0x100 * (high as int) + low as int
  }

  // ---------- decoding ----------

  /** The protocol phases; each has its own codec. */
  datatype Phase = Greeting | Authentication | Request

  function MaxFrame(ph: Phase): nat {
    match ph
    case Greeting => MAX_GREETING_FRAME_SIZE
    case Authentication => MAX_AUTH_FRAME_SIZE
    case Request => MAX_REQUEST_FRAME_SIZE
  }

  /** What a buffer holds at its front: too little, a violation, or a frame of `used` bytes. */
  datatype Parsed = Incomplete | Reject(error: ProtocolError) | Frame(item: ClientMessage, used: nat)

  datatype DecodeResult = Ok(item: Option<ClientMessage>) | Err(error: ProtocolError)

  /** How a decoder reports `p`: the buffer moves past a frame and is otherwise left alone. */
  ghost predicate Reports(p: Parsed, before: seq<byte>, after: seq<byte>, r: DecodeResult) {
    match p
    case Incomplete => r == Ok(None) && after == before
    case Reject(e) => r == Err(e) && after == before
    case Frame(m, n) => n <= |before| && r == Ok(Some(m)) && after == before[n..]
  }

  /** The known methods among the offered bytes, in the order offered. */
  function KnownMethods(raw: seq<byte>): seq<AuthMethod> {
    if |raw| == 0 then []
    else
      match MethodOf(raw[0])
      case Some(m) => [m] + KnownMethods(raw[1..])
      case None => KnownMethods(raw[1..])
  }

  function ParseGreeting(b: seq<byte>): Parsed {
    if |b| > MAX_GREETING_FRAME_SIZE then Reject(FrameTooLarge)
    else if |b| < 2 then Incomplete
    else if b[0] != SOCKS5_VER then Reject(InvalidVersion)
    else if b[1] == 0 then Reject(EmptyMethodsList)
    else if |b| < 2 + b[1] as int then Incomplete
    else Frame(ClientGreeting(KnownMethods(b[2..2 + b[1] as int])), 2 + b[1] as int)
  }

  function ParseAuth(b: seq<byte>): Parsed {
    if |b| > MAX_AUTH_FRAME_SIZE then Reject(FrameTooLarge)
    else if |b| < 2 then Incomplete
    else if b[0] != SOCKS5_AUTH_VER then Reject(InvalidAuthVersion)
    else if b[1] == 0 then Reject(EmptyUsername)
    else
      var plenOffset := 2 + b[1] as int;
      if |b| < plenOffset + 1 then Incomplete
      else if b[plenOffset] == 0 then Reject(EmptyPassword)
      else
        var total := plenOffset + 1 + b[plenOffset] as int;
        if |b| < total then Incomplete
        else if !Utf8(b[2..plenOffset]) then Reject(InvalidUsernameEncoding)
        else if !Utf8(b[plenOffset + 1..total]) then Reject(InvalidPasswordEncoding)
        else Frame(AuthRequest(b[2..plenOffset], b[plenOffset + 1..total]), total)
  }

  function ParseRequest(b: seq<byte>): Parsed {
    if |b| > MAX_REQUEST_FRAME_SIZE then Reject(FrameTooLarge)
    else if |b| < 4 then Incomplete
    else if b[0] != SOCKS5_VER then Reject(InvalidVersion)
    else if CommandOf(b[1]).None? then Reject(InvalidCommand)
    else if b[2] != SOCKS5_RSV then Reject(InvalidReserved)
    else
      var command := CommandOf(b[1]).value;
      match b[3]
      case 0x01 =>
        if |b| < 10 then Incomplete
        else Frame(ClientRequest(command, Ipv4(b[4..8], PortOf(b[8], b[9]))), 10)
      case 0x04 =>
        if |b| < 22 then Incomplete
        else Frame(ClientRequest(command, Ipv6(b[4..20], PortOf(b[20], b[21]), 0, 0)), 22)
      case 0x03 =>
        if |b| < 5 || |b| < 7 + b[4] as int then Incomplete
        else
          var end := 5 + b[4] as int;
          if !Utf8(b[5..end]) then Reject(InvalidDomainEncoding)
          else Frame(ClientRequest(command, Domain(b[5..end], PortOf(b[end], b[end + 1]))), end + 2)
      case _ => Reject(InvalidAddressType)
  }

  function Parse(ph: Phase, b: seq<byte>): Parsed {
    match ph
    case Greeting => ParseGreeting(b)
    case Authentication => ParseAuth(b)
    case Request => ParseRequest(b)
  }

  method DecodeGreeting(buf: BytesMut) returns (r: DecodeResult)
    modifies buf
    ensures Reports(ParseGreeting(old(buf.bytes)), old(buf.bytes), buf.bytes, r)
  {
    if |buf.bytes| > MAX_GREETING_FRAME_SIZE {
      return Err(FrameTooLarge);
    }
    if |buf.bytes| < 2 {
      return Ok(None);
    }
    var ver := buf.bytes[0];
    if ver != SOCKS5_VER {
      return Err(InvalidVersion);
    }
    var nmethods := buf.bytes[1] as int;
    if nmethods == 0 {
      return Err(EmptyMethodsList);
    }
    var totalLen := 2 + nmethods;
    if |buf.bytes| < totalLen {
      return Ok(None);
    }
    var methods := KnownMethods(buf.bytes[2..totalLen]);
    buf.Advance(totalLen);
    return Ok(Some(ClientGreeting(methods)));
  }

  method DecodeAuth(buf: BytesMut) returns (r: DecodeResult)
    modifies buf
    ensures Reports(ParseAuth(old(buf.bytes)), old(buf.bytes), buf.bytes, r)
  {
    if |buf.bytes| > MAX_AUTH_FRAME_SIZE {
      return Err(FrameTooLarge);
    }
    if |buf.bytes| < 2 {
      return Ok(None);
    }
    var ver := buf.bytes[0];
    if ver != SOCKS5_AUTH_VER {
      return Err(InvalidAuthVersion);
    }
    var ulen := buf.bytes[1] as int;
    if ulen == 0 {
      return Err(EmptyUsername);
    }
    var plenOffset := 2 + ulen;
    if |buf.bytes| < plenOffset + 1 {
      return Ok(None);
    }
    var plen := buf.bytes[plenOffset];
    if plen == 0 {
      return Err(EmptyPassword);
    }
    var totalLen := plenOffset + 1 + plen;
    if |buf.bytes| < totalLen {
      return Ok(None);
    }
    var username := buf.bytes[2..plenOffset];
    if !Utf8(username) {
      return Err(InvalidUsernameEncoding);
    }
    var password := buf.bytes[plenOffset + 1..totalLen];
    if !Utf8(password) {
      return Err(InvalidPasswordEncoding);
    }
    buf.Advance(totalLen);
    return Ok(Some(AuthRequest(username, password)));
  }

  method DecodeRequest(buf: BytesMut) returns (r: DecodeResult)
    modifies buf
    ensures Reports(ParseRequest(old(buf.bytes)), old(buf.bytes), buf.bytes, r)
  {
    if |buf.bytes| > MAX_REQUEST_FRAME_SIZE {
      return Err(FrameTooLarge);
    }
    if |buf.bytes| < 4 {
      return Ok(None);
    }
    if buf.bytes[0] != SOCKS5_VER {
      return Err(InvalidVersion);
    }
    var command := CommandOf(buf.bytes[1]);
    if command.None? {
      return Err(InvalidCommand);
    }
    if buf.bytes[2] != SOCKS5_RSV {
      return Err(InvalidReserved);
    }
    var atyp := buf.bytes[3];
    var addressLen: nat;
    if atyp == ATYP_IPV4 {
      addressLen := 4;
    } else if atyp == ATYP_IPV6 {
      addressLen := 16;
    } else if atyp == ATYP_DOMAIN {
      if |buf.bytes| < 5 {
        return Ok(None);
      }
      addressLen := 1 + buf.bytes[4] as int;
    } else {
      return Err(InvalidAddressType);
    }
    var totalLen := 4 + addressLen + 2;
    if |buf.bytes| < totalLen {
      return Ok(None);
    }
    var addressData := buf.bytes[4..4 + addressLen];
    var portNumber := PortOf(buf.bytes[4 + addressLen], buf.bytes[4 + addressLen + 1]);
    var dstAddress: Address;
    if atyp == ATYP_IPV4 {
      dstAddress := Ipv4(addressData, portNumber);
    } else if atyp == ATYP_IPV6 {
      dstAddress := Ipv6(addressData, portNumber, 0, 0);
    } else {
      var domain := addressData[1..];
      assert domain == buf.bytes[5..5 + buf.bytes[4] as int];
      if !Utf8(domain) {
        return Err(InvalidDomainEncoding);
      }
      dstAddress := Domain(domain, portNumber);
    }
    buf.Advance(totalLen);
    return Ok(Some(ClientRequest(command.value, dstAddress)));
  }

  /** The decoder of the codec in force. */
  method Decode(ph: Phase, buf: BytesMut) returns (r: DecodeResult)
    modifies buf
    ensures Reports(Parse(ph, old(buf.bytes)), old(buf.bytes), buf.bytes, r)
  {
    match ph
    case Greeting => r := DecodeGreeting(buf);
    case Authentication => r := DecodeAuth(buf);
    case Request => r := DecodeRequest(buf);
  }

  // ---------- encoding ----------

  function Atyp(a: Address): byte {
    match a
    case Ipv4(_, _) => ATYP_IPV4
    case Domain(_, _) => ATYP_DOMAIN
    case Ipv6(_, _, _, _) => ATYP_IPV6
  }

  /** BND.ADDR as it is written; the length octet of a name keeps only its low eight bits. */
  function AddressField(a: Address): seq<byte> {
    match a
    case Ipv4(ip, _) => ip
    case Domain(name, _) => [|name| % 0x100] + name
    case Ipv6(ip, _, _, _) => ip
  }

  function Encoded(m: ServerMessage): seq<byte> {
    match m
    case ServerGreeting(s) => [SOCKS5_VER, MethodByte(s)]
    case AuthResponse(s) => [SOCKS5_AUTH_VER, StatusByte(s)]
    case ServerResponse(r, a) =>
      [SOCKS5_VER, ReplyByte(r), SOCKS5_RSV, Atyp(a)] + AddressField(a) + BigEndian(a.port)
  }

  method EncodeGreeting(item: ServerMessage, buf: BytesMut)
    requires item.ServerGreeting?
    modifies buf
    ensures buf.bytes == old(buf.bytes) + Encoded(item)
  {
    buf.PutU8(SOCKS5_VER);
    buf.PutU8(MethodByte(item.selected));
  }

  method EncodeAuth(item: ServerMessage, buf: BytesMut)
    requires item.AuthResponse?
    modifies buf
    ensures buf.bytes == old(buf.bytes) + Encoded(item)
  {
    buf.PutU8(SOCKS5_AUTH_VER);
    buf.PutU8(StatusByte(item.status));
  }

  method EncodeResponse(item: ServerMessage, buf: BytesMut)
    requires item.ServerResponse?
    modifies buf
    ensures buf.bytes == old(buf.bytes) + Encoded(item)
  {
    buf.PutU8(SOCKS5_VER);
    buf.PutU8(ReplyByte(item.reply));
    buf.PutU8(SOCKS5_RSV);
    buf.PutU8(Atyp(item.bndAddress));
    match item.bndAddress {
      case Ipv4(ip, _) => buf.PutSlice(ip);
      case Ipv6(ip, _, _, _) => buf.PutSlice(ip);
      case Domain(name, _) =>
        buf.PutU8(|name| % 0x100);
        buf.PutSlice(name);
    }
    buf.PutU16(item.bndAddress.port);
  }

  /** The encoder that the message's type selects. */
  method Encode(item: ServerMessage, buf: BytesMut)
    modifies buf
    ensures buf.bytes == old(buf.bytes) + Encoded(item)
  {
    match item
    case ServerGreeting(_) => EncodeGreeting(item, buf);
    case AuthResponse(_) => EncodeAuth(item, buf);
    case ServerResponse(_, _) => EncodeResponse(item, buf);
  }
}
