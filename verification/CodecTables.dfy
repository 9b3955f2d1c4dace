/** The octets of the wire formats, spelled out; and which violation each decoder reports. */
module CodecTables {
  import opened Wire
  import opened ServerCodecs

  // ---------- octets ----------

  /** Section 4 of RFC 1928: the command octet of a request. */
  lemma CommandOctets(b: byte)
    ensures Parse(Request, [5, b, 0, 1, 192, 0, 2, 1, 0x1F, 0x90]) ==
            var a := Ipv4([192, 0, 2, 1], 8080);
            if b == 1 then Frame(ClientRequest(Connect, a), 10)
            else if b == 2 then Frame(ClientRequest(Bind, a), 10)
            else if b == 3 then Frame(ClientRequest(UdpAssociate, a), 10)
            else Reject(InvalidCommand)
  {
    var f: seq<byte> := [5, b, 0, 1, 192, 0, 2, 1, 0x1F, 0x90];
    assert f[4..8] == [192, 0, 2, 1];
  }

  /** Section 5 of RFC 1928: address type 3 is a name behind its length, here "ab". */
  lemma NameOctets(high: byte, low: byte)
    ensures Parse(Request, [5, 1, 0, 3, 2, 97, 98, high, low]) ==
            Frame(ClientRequest(Connect, Domain([97, 98], 256 * (high as int) + low as int)), 9)
  {
    var f: seq<byte> := [5, 1, 0, 3, 2, 97, 98, high, low];
    var name: seq<byte> := [97, 98];
    assert f[5..7] == name && name[1..] == [98] && name[1..][1..] == [];
    assert Utf8(name[1..]);
  }

  /** Address type 4 is an IPv6 address, and 1 an IPv4 address. */
  lemma AddressOctets(ip6: Octets16, ip4: Octets4, high: byte, low: byte)
    ensures Parse(Request, [5, 1, 0, 4] + ip6 + [high, low]) ==
            Frame(ClientRequest(Connect, Ipv6(ip6, 256 * (high as int) + low as int, 0, 0)), 22)
    ensures Parse(Request, [5, 1, 0, 1] + ip4 + [high, low]) ==
            Frame(ClientRequest(Connect, Ipv4(ip4, 256 * (high as int) + low as int)), 10)
  {
    assert ([5, 1, 0, 4] + ip6 + [high, low])[4..20] == ip6;
    assert ([5, 1, 0, 1] + ip4 + [high, low])[4..8] == ip4;
  }

  /** Section 3 of RFC 1928: the method octets that a greeting offers. */
  lemma MethodOctets(b: byte)
    ensures Parse(Greeting, [5, 1, b]) ==
            Frame(ClientGreeting(if b == 0 then [NoAuthenticationRequired]
                                 else if b == 1 then [Gssapi]
                                 else if b == 2 then [UsernamePassword]
                                 else if b == 0xFF then [NoAcceptableMethods]
                                 else []), 3)
  {
    var f: seq<byte> := [5, 1, b];
    var raw: seq<byte> := [b];
    assert f[2..3] == raw && raw[1..] == [] && KnownMethods(raw[1..]) == [];
    assert Parse(Greeting, f) == Frame(ClientGreeting(KnownMethods(raw)), 3);
    match MethodOf(b) {
      case Some(m) => assert KnownMethods(raw) == [m];
      case None => assert KnownMethods(raw) == [];
    }
  }

  /** Section 2 of RFC 1929: the request for the name "a" with the password "b". */
  lemma CredentialOctets()
    ensures Parse(Authentication, [1, 1, 97, 1, 98]) == Frame(AuthRequest([97], [98]), 5)
  {
    var f: seq<byte> := [1, 1, 97, 1, 98];
    assert f[2..3] == [97] && f[4..5] == [98];
    assert [97 as byte][1..] == [] && [98 as byte][1..] == [];
  }

  /** What the server writes: section 3 of RFC 1928 and section 2 of RFC 1929. */
  lemma SelectionOctets()
    ensures Encoded(ServerGreeting(NoAuthenticationRequired)) == [5, 0]
    ensures Encoded(ServerGreeting(Gssapi)) == [5, 1]
    ensures Encoded(ServerGreeting(UsernamePassword)) == [5, 2]
    ensures Encoded(ServerGreeting(NoAcceptableMethods)) == [5, 0xFF]
    ensures Encoded(AuthResponse(Success)) == [1, 0]
    ensures Encoded(AuthResponse(Failure)) == [1, 1]
  {
  }

  /** Section 6 of RFC 1928: the reply octet. */
  function ReplyOctet(r: Reply): byte {
    match r
    case Succeeded => 0
    case GeneralFailure => 1
    case ConnectionNotAllowed => 2
    case NetworkUnreachable => 3
    case HostUnreachable => 4
    case ConnectionRefused => 5
    case TtlExpired => 6
    case CommandNotSupported => 7
    case AddressTypeNotSupported => 8
  }

  /** Responses octet by octet, with the port in network byte order. */
  lemma ResponseOctets(r: Reply, a: Address)
    ensures var port := [a.port / 256, a.port % 256];
            Encoded(ServerResponse(r, a)) ==
            match a
            case Ipv4(ip, _) => [5, ReplyOctet(r), 0, 1] + ip + port
            case Domain(name, _) => [5, ReplyOctet(r), 0, 3] + ([|name| % 256] + name) + port
            case Ipv6(ip, _, _, _) => [5, ReplyOctet(r), 0, 4] + ip + port
  {
  }

  // ---------- violations ----------

  ghost predicate Readable(b: seq<byte>, from: nat, limit: nat) {
    from <= |b| <= limit
  }

  /** A greeting is judged from two bytes on: the version first, then the number of methods. */
  lemma GreetingViolations(b: seq<byte>)
    ensures Parse(Greeting, b) == Reject(InvalidVersion) <==> Readable(b, 2, 257) && b[0] != 5
    ensures Parse(Greeting, b) == Reject(EmptyMethodsList) <==> Readable(b, 2, 257) && b[0] == 5 && b[1] == 0
    ensures Parse(Greeting, b).Reject? ==> Parse(Greeting, b).error in {FrameTooLarge, InvalidVersion, EmptyMethodsList}
    ensures Parse(Greeting, b).Incomplete? <==> |b| < 2 || (b[0] == 5 && 0 < b[1] && |b| < 2 + b[1] as int)
  {
  }

  /** Credentials are judged from two bytes on: the version, then an empty name, then an empty password as soon as its
      length is there, and the encodings only when all is there, the name's first. */
  lemma CredentialViolations(b: seq<byte>)
    ensures Parse(Authentication, b) == Reject(InvalidAuthVersion) <==> Readable(b, 2, 513) && b[0] != 1
    ensures Parse(Authentication, b) == Reject(EmptyUsername) <==> Readable(b, 2, 513) && b[0] == 1 && b[1] == 0
    ensures Parse(Authentication, b) == Reject(EmptyPassword) <==>
            Readable(b, 2, 513) && b[0] == 1 && b[1] > 0 && |b| > 2 + b[1] as int && b[2 + b[1] as int] == 0
    ensures Parse(Authentication, b) == Reject(InvalidUsernameEncoding) <==>
            Readable(b, 2, 513) && CredentialsThere(b) && !Utf8(b[2..2 + b[1] as int])
    ensures Parse(Authentication, b) == Reject(InvalidPasswordEncoding) <==>
            && Readable(b, 2, 513) && CredentialsThere(b) && Utf8(b[2..2 + b[1] as int])
            && !Utf8(b[3 + b[1] as int..3 + b[1] as int + b[2 + b[1] as int] as int])
    ensures Parse(Authentication, b).Reject? ==>
              Parse(Authentication, b).error in {FrameTooLarge, InvalidAuthVersion, EmptyUsername, EmptyPassword,
                                                 InvalidUsernameEncoding, InvalidPasswordEncoding}
  {
  }

  /** Two non-empty fields with their lengths, and all their bytes. */
  ghost predicate CredentialsThere(b: seq<byte>) {
    && |b| >= 2 && b[0] == 1 && b[1] > 0
    && |b| > 2 + b[1] as int && b[2 + b[1] as int] > 0
    && |b| >= 3 + b[1] as int + b[2 + b[1] as int] as int
  }

  /** A request is judged from four bytes on: version, command, reserved octet and address type, in this order; the
      encoding of a name only when all is there. */
  lemma RequestViolations(b: seq<byte>)
    ensures Parse(Request, b) == Reject(InvalidVersion) <==> Readable(b, 4, 262) && b[0] != 5
    ensures Parse(Request, b) == Reject(InvalidCommand) <==> Readable(b, 4, 262) && b[0] == 5 && !(1 <= b[1] <= 3)
    ensures Parse(Request, b) == Reject(InvalidReserved) <==>
            Readable(b, 4, 262) && b[0] == 5 && 1 <= b[1] <= 3 && b[2] != 0
    ensures Parse(Request, b) == Reject(InvalidAddressType) <==>
            Readable(b, 4, 262) && b[0] == 5 && 1 <= b[1] <= 3 && b[2] == 0 && b[3] != 1 && b[3] != 3 && b[3] != 4
    ensures Parse(Request, b) == Reject(InvalidDomainEncoding) <==>
            && Readable(b, 5, 262) && b[0] == 5 && 1 <= b[1] <= 3 && b[2] == 0 && b[3] == 3
            && |b| >= 7 + b[4] as int && !Utf8(b[5..5 + b[4] as int])
    ensures Parse(Request, b).Reject? ==>
              Parse(Request, b).error in {FrameTooLarge, InvalidVersion, InvalidCommand, InvalidReserved,
                                          InvalidAddressType, InvalidDomainEncoding}
  {
  }
}
