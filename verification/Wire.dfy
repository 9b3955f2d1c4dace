/** Protocol values of SOCKS version 5: octets, field encodings, messages and errors. */
module Wire {

  type byte = b: int | 0 <= b < 0x100
  type port = p: int | 0 <= p < 0x1_0000

  datatype Option<+T> = None | Some(value: T)

  const SOCKS5_VER: byte := 0x05
  const SOCKS5_AUTH_VER: byte := 0x01
  const SOCKS5_RSV: byte := 0x00

  const MAX_GREETING_FRAME_SIZE: nat := 257
  const MAX_AUTH_FRAME_SIZE: nat := 513
  const MAX_REQUEST_FRAME_SIZE: nat := 262

  // ---------- field values ----------

  datatype AuthMethod = NoAuthenticationRequired | Gssapi | UsernamePassword | NoAcceptableMethods

  function MethodByte(m: AuthMethod): byte {
    match m
    case NoAuthenticationRequired => 0x00
    case Gssapi => 0x01
    case UsernamePassword => 0x02
    case NoAcceptableMethods => 0xFF
  }

  function MethodOf(b: byte): Option<AuthMethod> {
    match b
    case 0x00 => Some(NoAuthenticationRequired)
    case 0x01 => Some(Gssapi)
    case 0x02 => Some(UsernamePassword)
    case 0xFF => Some(NoAcceptableMethods)
    case _ => None
  }

  datatype AuthStatus = Success | Failure

  function StatusByte(s: AuthStatus): byte {
    match s
    case Success => 0x00
    case Failure => 0x01
  }

  function StatusOf(b: byte): AuthStatus {
    if b == 0x00 then Success else Failure
  }

  datatype Command = Connect | Bind | UdpAssociate

  function CommandByte(c: Command): byte {
    match c
    case Connect => 0x01
    case Bind => 0x02
    case UdpAssociate => 0x03
  }

  function CommandOf(b: byte): Option<Command> {
    match b
    case 0x01 => Some(Connect)
    case 0x02 => Some(Bind)
    case 0x03 => Some(UdpAssociate)
    case _ => None
  }

  datatype Reply =
    | Succeeded
    | GeneralFailure
    | ConnectionNotAllowed
    | NetworkUnreachable
    | HostUnreachable
    | ConnectionRefused
    | TtlExpired
    | CommandNotSupported
    | AddressTypeNotSupported

  function ReplyByte(r: Reply): byte {
    match r
    case Succeeded => 0x00
    case GeneralFailure => 0x01
    case ConnectionNotAllowed => 0x02
    case NetworkUnreachable => 0x03
    case HostUnreachable => 0x04
    case ConnectionRefused => 0x05
    case TtlExpired => 0x06
    case CommandNotSupported => 0x07
    case AddressTypeNotSupported => 0x08
  }

  function ReplyOf(b: byte): Option<Reply> {
    match b
    case 0x00 => Some(Succeeded)
    case 0x01 => Some(GeneralFailure)
    case 0x02 => Some(ConnectionNotAllowed)
    case 0x03 => Some(NetworkUnreachable)
    case 0x04 => Some(HostUnreachable)
    case 0x05 => Some(ConnectionRefused)
    case 0x06 => Some(TtlExpired)
    case 0x07 => Some(CommandNotSupported)
    case 0x08 => Some(AddressTypeNotSupported)
    case _ => None
  }

  const ATYP_IPV4: byte := 0x01
  const ATYP_DOMAIN: byte := 0x03
  const ATYP_IPV6: byte := 0x04

  // ---------- addresses ----------

  type Octets4 = s: seq<byte> | |s| == 4 witness [0, 0, 0, 0]
  type Octets16 = s: seq<byte> | |s| == 16 witness seq(16, _ => 0)

  /** Text is kept as its bytes; `Utf8` says which byte strings are text. */
  type Text = seq<byte>

  datatype Address =
    | Ipv4(ip4: Octets4, port: port)
    | Domain(name: Text, port: port)
    | Ipv6(ip6: Octets16, port: port, flowInfo: nat, scopeId: nat)

  /** The socket addresses the operating system hands out never carry a name. */
  type SocketAddr = a: Address | !a.Domain? witness Ipv4([0, 0, 0, 0], 0)

  const UNSPECIFIED_ADDRESS: SocketAddr := Ipv4([0, 0, 0, 0], 0)

  // ---------- messages ----------

  datatype ClientMessage =
    | ClientGreeting(methods: seq<AuthMethod>)
    | AuthRequest(username: Text, password: Text)
    | ClientRequest(command: Command, dstAddress: Address)

  datatype ServerMessage =
    | ServerGreeting(selected: AuthMethod)
    | AuthResponse(status: AuthStatus)
    | ServerResponse(reply: Reply, bndAddress: Address)

  datatype ProtocolError =
    | InvalidVersion
    | InvalidAuthVersion
    | InvalidAddressType
    | InvalidReserved
    | InvalidCommand
    | EmptyMethodsList
    | EmptyUsername
    | EmptyPassword
    | FrameTooLarge
    | InvalidDomainEncoding
    | InvalidUsernameEncoding
    | InvalidPasswordEncoding

  // ---------- UTF-8 ----------

  predicate Continuation(b: byte) {
    0x80 <= b < 0xC0
  }

  predicate Utf8(s: seq<byte>)
    decreases |s|
  {
    if |s| == 0 then true
    else
      var b := s[0];
      if b < 0x80 then Utf8(s[1..])
      else if 0xC2 <= b < 0xE0 then
        |s| >= 2 && Continuation(s[1]) && Utf8(s[2..])
      else if 0xE0 <= b < 0xF0 then
        && |s| >= 3 && Continuation(s[1]) && Continuation(s[2])
        && (b == 0xE0 ==> 0xA0 <= s[1])
        && (b == 0xED ==> s[1] < 0xA0)
        && Utf8(s[3..])
      else if 0xF0 <= b < 0xF5 then
        && |s| >= 4 && Continuation(s[1]) && Continuation(s[2]) && Continuation(s[3])
        && (b == 0xF0 ==> 0x90 <= s[1])
        && (b == 0xF4 ==> s[1] < 0x90)
        && Utf8(s[4..])
      else false
  }
}
