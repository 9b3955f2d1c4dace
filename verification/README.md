# zc-splice-proxy: verified model

A Dafny model of the SOCKS5 proxy, from the client's first byte to the tunnel or the closing reply, and proofs
about all of its runs. `dafny verify dfyconfig.toml` checks the whole project.

- `Wire`, `ServerCodecs`, `CodecLaws`, `CodecTables`, `Utf8Text`, `ClientView`: messages and wire formats; the three
  decoders over a growable buffer and the three encoders; what they mean on the wire, against printers and a client
  parser written from sections 3 to 6 of RFC 1928 and section 2 of RFC 1929.
- `FramedStream`, `Handshake`, `HandshakeLaws`, `Intake`, `Pipelining`, `Transcripts`, `Language`, `Access`,
  `Answered`, `Socks5Handling`: one client. A stream delivers the client's bytes in arbitrary chunks;
  authentication, connecting, listening, accepting and every single send succeed or fail as the environment decides.
  `Handshake` says what a run does; the class in `Socks5Handling` is the handler that does it; the other files prove
  what every run guarantees.
- `Addresses`, `StableSort`, `Preference`, `ConnectEngine`, `ConnectLaws`, `Pacing`, `Timetable`, `HappyEyeballs`,
  `ConnectUpstream`: connecting to a name, and the outer limit. The attempt loop is a transition system over an
  idealised clock in natural numbers: when a result and the sleep are due at the same instant the result wins, and
  ties between results are broken arbitrarily. `D` is the attempt delay, `T` the timeout of one attempt, `n` the
  number of addresses.
- `Errors`, `EndToEnd`: from failures to the reply code the client reads.
- `ServerLifecycle`, `ServerLaws`, `ServerReach`: the accept loop, permits, handler tasks and the shutdown drain, as
  a transition system over any number of handlers; whatever is ready happens before the clock moves.

## Where the code and its documentation differ

The model follows the code. For each claim that fails there is an input that shows it, and the exact condition
under which it holds.

- "Continue with remaining addresses at 250ms intervals" (noxen-proxy/src/net/happy_eyeballs.rs:27): the sleep is
  created anew on every iteration, so a failed attempt postpones the next start. `OnScheduleIff` says exactly when
  it does not, `QuickRefusalDelaysTheNext` is a case, and `TimeBoundAttained` the worst one.
- "Wait for both with timeout" (noxen-proxy/src/net/happy_eyeballs.rs:441): when the joint wait times out, an answer
  that did arrive is dropped too, of either family: `TimelyIpv4UsedIff`, `TimelyIpv6UsedIff`, and `SilentIpv6Lookup`
  for a name that is not found so.
- "Host unreachable -> HostUnreachable" (noxen-proxy/src/handler/socks5/state.rs:695): an input/output error of that
  kind is answered with a general failure, as is a name whose attempts timed out; host unreachable stands for an
  outer timeout, failed resolution, not-found and address-not-available: `HostUnreachableAnswered`,
  `HostUnreachableIsGeneralFailure`.
- "Connection refused -> ConnectionRefused" and "Network unreachable -> NetworkUnreachable"
  (noxen-proxy/src/handler/socks5/state.rs:693-694): if a name's addresses fail so, the client is told exactly if
  every attempt, started when it is due, ends within the outer limit, and a refusal goes before a missing network
  (`FailureToldIff`, with the exact start of each attempt in `RunByTimetable`). With the default times one silent
  address is enough to hide either (`FailureHidden`, `SilentAddressHidesFailures`), and only a limit that covers the
  longest possible call is long enough for the refusals of all names (`RefusalsSurelyToldIff`).
- "Must contain at least one method" (noxen-socks5/src/messages.rs:83): the decoded list is empty when all offered
  bytes are unknown (`NoMethodDecodedIff`, `GreetingWithoutMethods`). "domain length, 1-255"
  (noxen-socks5/src/types.rs:345): a length of 0 is accepted (`NameLengthIff`, `EmptyNameDecodes`).
- A client that sends ahead is treated differently depending on how its bytes are read, and may lose payload:
  `ServeChunkingIndependentIff`, `TunnelLosesNothingIff` and `NoSplittingLosesIff` say exactly when not.

## Model

| member | source | states |
|---|---|---|
| `ConnectEngine.ConnectToAddresses` | noxen-proxy/src/net/happy_eyeballs.rs:529-587 | the staggered loop, with ties between finished attempts broken arbitrarily: its iterations form a run of the transition relation from the first attempt, and it returns only where that relation ends; without addresses it fails with no errors |
| `ConnectLaws.AddressesConserved` | noxen-proxy/src/net/happy_eyeballs.rs:533-584 | in every state at the loop head remaining + in flight + failed = all; the started addresses are a prefix of the order, each in flight or failed, exactly once |
| `ConnectLaws.LoopTerminates` | noxen-proxy/src/net/happy_eyeballs.rs:551-584 | 2 remaining + in flight falls by exactly one with every iteration that does not return, so there are fewer than 2n iterations, and in every reachable state the loop can go on or return |
| `ConnectLaws.StartsPaced` | noxen-proxy/src/net/happy_eyeballs.rs:569-580 | consecutive attempts start at least one delay apart although every failure re-arms the sleep, and attempt i starts no later than i (D + min(D, T)), hence 2 i D |
| `Pacing.OnScheduleIff` | noxen-proxy/src/net/happy_eyeballs.rs:551-584 | in every state of every run, the attempts so far started at exact multiples of the delay iff each of them but the last, started on schedule, ends at once or only after the last one's start: a condition on the addresses alone |
| `Pacing.QuickRefusalDelaysTheNext` | noxen-proxy/src/net/happy_eyeballs.rs:25-27 | a run that misses the documented interval: one refusal after 100, and the second attempt starts at 350 instead of 250 |
| `ConnectLaws.ParallelismBounded` | noxen-proxy/src/net/happy_eyeballs.rs:551-584 | for D > 0 and T > 0 no reachable state has more than ceil(T/D) attempts in flight |
| `ConnectLaws.ParallelismAttained` | noxen-proxy/src/net/happy_eyeballs.rs:551-584 | that bound is reached: with ceil(T/D) silent addresses all of them are in flight at once |
| `ConnectLaws.AttemptWithTimeout` | noxen-proxy/src/net/happy_eyeballs.rs:592-596 | an outcome within the timeout, or just as it expires, is the attempt's outcome; otherwise it is a timeout, then |
| `ConnectLaws.ConnectsIffReachable` | noxen-proxy/src/net/happy_eyeballs.rs:556-586 | for every order and all outcomes a stream is returned iff some address would connect within the timeout; otherwise there is exactly one error per address, each that address's own outcome, in completion order |
| `ConnectLaws.FirstSuccessWins` | noxen-proxy/src/net/happy_eyeballs.rs:527-528 | no started attempt that would succeed ends before the returned stream |
| `ConnectLaws.ReachableInTime` | noxen-proxy/src/net/happy_eyeballs.rs:529-587 | an address that would connect after L yields a stream by i (D + min(D, T)) + L, i its place in the order, whatever the other addresses do |
| `ConnectLaws.ReturnsInTime` | noxen-proxy/src/net/happy_eyeballs.rs:529-596 | the call returns by (n-1)(D + min(D, T)) + T, hence by 2(n-1)D + T |
| `ConnectLaws.TimeBoundAttained` | noxen-proxy/src/net/happy_eyeballs.rs:569-596 | for every n, D and T a run starts its last attempt exactly at (n-1)(D + min(D, T)) and returns exactly T later, so no smaller bound holds |
| `Timetable.RunByTimetable` | noxen-proxy/src/net/happy_eyeballs.rs:551-584 | in every state of every run the attempts have started at the instants that follow from the addresses alone: each one delay after the first instant, since the start before it, that no attempt's end follows within a delay |
| `Timetable.ReturnsOnTime` | noxen-proxy/src/net/happy_eyeballs.rs:551-586 | every run returns as the first attempt that connects ends by this timetable, or else as the last attempt ends |
| `Timetable.TiesCostNoTime` | noxen-proxy/src/net/happy_eyeballs.rs:552-568 | however ties are broken, any two runs over the same addresses agree on the starts they have in common and return at the same instant |
| `ConnectLaws.ReplyDecidedByAddresses` | noxen-proxy/src/handler/socks5/error.rs:125-152 | after failed attempts the reply says refused iff some address refuses, else network unreachable iff some address reports it; with a refusal, a missing network or a timeout among the outcomes, any two runs over the same addresses are answered alike |
| `Addresses.MasksAreRanges` | noxen-proxy/src/net/happy_eyeballs.rs:202-213 | the two mask tests are exactly 0xFC00..0xFDFF and 0xFE80..0xFEBF of the first segment, are disjoint, and neither holds of the loopback address |
| `StableSort.SortIsTheStableSort` | noxen-proxy/src/net/happy_eyeballs.rs:154-189 | sorting by a key gives the one list that is in order and keeps ties in the order given |
| `StableSort.SortPermutes` | noxen-proxy/src/net/happy_eyeballs.rs:154-189 | sorting neither adds nor loses elements |
| `HappyEyeballs.ResolvedAddresses.SortByPreference` | noxen-proxy/src/net/happy_eyeballs.rs:154-189 | both lists become their stable sorts by rank and still hold one family each, so neither `unreachable!` arm is met |
| `Addresses.InterleavedAddressesIter.Next` | noxen-proxy/src/net/happy_eyeballs.rs:248-264 | takes the next address of the interleaving off, and once there is none the iterator never changes again |
| `Addresses.InterleavedAddressesIter.Len` | noxen-proxy/src/net/happy_eyeballs.rs:281-283 | the number of addresses still to come, in every state of the iterator |
| `Addresses.InterleavedAddressesIter.SizeHint` | noxen-proxy/src/net/happy_eyeballs.rs:266-277 | both bounds are the number of addresses still to come, in every state of the iterator |
| `Addresses.InterleavingClosedForm` | noxen-proxy/src/net/happy_eyeballs.rs:215-264 | what the iterator yields is pairs of one address from each family up to the shorter length, then the rest of the longer list |
| `Addresses.PairsAlternate` | noxen-proxy/src/net/happy_eyeballs.rs:223-224 | the pairs put the k-th IPv6 address at 2k and the k-th IPv4 address at 2k + 1 |
| `Addresses.InterleavingPermutes` | noxen-proxy/src/net/happy_eyeballs.rs:248-264 | interleaving is a permutation of both lists, from either turn |
| `Addresses.InterleavingKeepsOrder` | noxen-proxy/src/net/happy_eyeballs.rs:248-264 | interleaving keeps the order within each family, from either turn |
| `HappyEyeballs.ResolveWithDelay` | noxen-proxy/src/net/happy_eyeballs.rs:446-509 | the IPv6 answer survives iff it is early or both lookups end in time; the IPv4 answer iff it is in time and the IPv6 lookup does not outlast the joint timeout; both lists are of one family; it ends exactly as both lookups have ended or one family timeout after the IPv4 lookup began; an answer is used iff its lookup has ended by then and, unless the IPv6 lookup was early, so has the other |
| `HappyEyeballs.AttemptOrderFaithful` | noxen-proxy/src/net/happy_eyeballs.rs:414-432 | the attempt order is a permutation of the resolved addresses in which each family is in order of preference with ties as resolved |
| `Preference.PreferredFirst` | noxen-proxy/src/net/happy_eyeballs.rs:148-189 | in terms of address ranges: no address is attempted after one to whose class its own is preferred: ::1, fc00::/7, fe80::/10, other IPv6; 127/8, private, other IPv4 |
| `Preference.ClassKeepsOrder` | noxen-proxy/src/net/happy_eyeballs.rs:148-189 | the addresses of one class are attempted in the order in which they were resolved |
| `Preference.ClassesPartition` | noxen-proxy/src/net/happy_eyeballs.rs:148-213 | every address belongs to exactly one class |
| `Preference.FamiliesAlternate` | noxen-proxy/src/net/happy_eyeballs.rs:414-432 | the attempts alternate between the families, an IPv6 address first, until one is used up |
| `HappyEyeballs.ConnectByName` | noxen-proxy/src/net/happy_eyeballs.rs:409-433 | the whole pipeline, explained by the resolved addresses alone: a stream iff one would connect, that of an attempt which, started when due, connects just as the call ends; no-addresses iff there are none; else the errors of all addresses in the order in which their attempts end; with the exact time of the resolution and of the attempts, and its bounds |
| `HappyEyeballs.OverByIff` | noxen-proxy/src/net/happy_eyeballs.rs:529-587 | the attempts are over by a given time iff, when none connects, each of them, started when due, has ended by then; and when some connects, one that connects has |
| `ConnectUpstream.ConnectToUpstream` | noxen-proxy/src/handler/socks5/state.rs:656-681 | a direct address or a name under the outer limit: a stream leads to an address that connects; the one whose attempt ends as the call does; any error but the timeout represents the errors in the order in which the attempts end; the timeout strikes iff resolution and attempts take longer than the limit; an address that answers early enough for its place in the order is always reached |
| `ConnectUpstream.FailureToldIff` | noxen-proxy/src/handler/socks5/state.rs:656-681 | a refusal is told iff no address connects, one refuses, and every attempt, started when it is due after the resolution, ends within the limit; a missing network iff no address connects, none refuses, one has no network, and every attempt ends so |
| `ConnectUpstream.RefusalsSurelyToldIff` | noxen-proxy/src/handler/socks5/state.rs:656-681 | for every n > 0: all names with n addresses that fail, one by a refusal, are answered within the limit after the longest resolution iff the limit covers the longest possible call |
| `ConnectUpstream.SilentAddressHidesFailures` | noxen-proxy/src/handler/socks5/state.rs:656-681 | with an attempt timeout no shorter than the limit, one silent address makes the timeout certain when none connects, unless it is tried at the very start of the call |
| `ConnectUpstream.FailureHidden` | noxen-proxy/src/handler/socks5/state.rs:691-697 | a call with all default times, of a name with one address that fails after 5, by a refusal or for any other reason, and one that is silent: host unreachable, whichever is tried first |
| `HappyEyeballs.TimelyIpv4UsedIff` | noxen-proxy/src/net/happy_eyeballs.rs:446-509 | an IPv4 answer within the family timeout is used iff the IPv6 lookup ends within resolution delay + family timeout; if it does not, and only then, the call reports that there are no addresses |
| `HappyEyeballs.TimelyIpv6UsedIff` | noxen-proxy/src/net/happy_eyeballs.rs:446-509 | an IPv6 answer within resolution delay + family timeout is used iff it is early or the IPv4 lookup ends within the family timeout; if neither, and only then, the call reports that there are no addresses |
| `HappyEyeballs.SilentIpv6Lookup` | noxen-proxy/src/net/happy_eyeballs.rs:409-433 | with the default times, a name with an IPv4 answer after 20 and an IPv6 lookup that ends after 60000 is reported to have no addresses |
| `Errors.RepresentativeMeaning` | noxen-proxy/src/handler/socks5/error.rs:134-143 | the representative failure is refused, else network unreachable, else timed out, else the first |
| `Errors.FailureReplyMeaning` | noxen-proxy/src/handler/socks5/error.rs:93-152 | reply to a failure list: refused iff a refusal occurs; network unreachable iff one occurs and no refusal; host unreachable iff no priority kind occurs and the first failure is not-found or address-not-available; else general failure |
| `Errors.ReplyOrderFreeIff` | noxen-proxy/src/handler/socks5/error.rs:134-143 | the reply is the same for every order of the failures iff a priority kind occurs or all failures would be answered alike |
| `Errors.HostUnreachableAnswered` | noxen-proxy/src/handler/socks5/error.rs:93-152 | failures of which one is "host unreachable" are answered by an unreachable host iff no priority kind occurs and the first failure is not-found or address-not-available; if all are of that kind, by a general failure |
| `Errors.HostUnreachableIsGeneralFailure` | noxen-proxy/src/handler/socks5/state.rs:691-697 | one failure of that kind, against the documented mapping |
| `Errors.ReplyTable` | noxen-proxy/src/handler/socks5/error.rs:93-104 | which errors each reply code stands for, for every error |
| `Errors.NameErrorTable` | noxen-proxy/src/handler/socks5/error.rs:115-133 | the errors of connecting to a name other than those of attempts |
| `EndToEnd.ConnectIsAnswered` | noxen-proxy/src/handler/socks5/state.rs:462-489 | in every run that receives a CONNECT request the last message is a reply with the code of the connection's outcome, delivered or not |
| `EndToEnd.ClientLearnsFate` | noxen-proxy/src/handler/socks5/state.rs:462-489 | the reply code to a name says what the resolved addresses did, and both ways: success iff the call takes no longer than the limit and some address connects; refused iff so and all fail, one by a refusal; network unreachable iff so and all fail, none by a refusal and one without network; a longer call, or no addresses, means host unreachable; an early enough address guarantees success |
| `ServerCodecs.DecodeGreeting` | noxen-socks5/src/codecs/server.rs:73-133 | reports incomplete, the first violation, or the frame, and moves the buffer only past a frame |
| `ServerCodecs.DecodeAuth` | noxen-socks5/src/codecs/server.rs:190-262 | the same for credentials, with both texts checked only when the frame is complete |
| `ServerCodecs.DecodeRequest` | noxen-socks5/src/codecs/server.rs:328-443 | the same for requests with all three address types |
| `ServerCodecs.EncodeGreeting` | noxen-socks5/src/codecs/server.rs:138-147 | appends the two bytes of the method selection |
| `ServerCodecs.EncodeAuth` | noxen-socks5/src/codecs/server.rs:267-276 | appends the two bytes of the authentication status |
| `ServerCodecs.EncodeResponse` | noxen-socks5/src/codecs/server.rs:448-485 | appends the response, a name's length cut to eight bits |
| `CodecTables.CommandOctets` | noxen-socks5/src/codecs/server.rs:330-441 | the command octets 1, 2 and 3, and no other, in a request spelled out |
| `CodecTables.NameOctets` | noxen-socks5/src/codecs/server.rs:422-432 | a request for a name spelled out, with its port in network byte order |
| `CodecTables.AddressOctets` | noxen-socks5/src/codecs/server.rs:408-421 | requests for any IPv4 or IPv6 address, octet by octet |
| `CodecTables.MethodOctets` | noxen-socks5/src/codecs/server.rs:113-126 | which method each offered octet stands for |
| `CodecTables.CredentialOctets` | noxen-socks5/src/codecs/server.rs:190-262 | a login spelled out |
| `CodecTables.SelectionOctets` | noxen-socks5/src/codecs/server.rs:138-276 | method selections and authentication statuses spelled out |
| `CodecTables.ResponseOctets` | noxen-socks5/src/codecs/server.rs:448-485 | every response octet by octet: reply code, address type, address, port in network byte order |
| `CodecTables.GreetingViolations` | noxen-socks5/src/codecs/server.rs:73-111 | when each violation of a greeting is reported, for every buffer, and when the decoder waits |
| `CodecTables.CredentialViolations` | noxen-socks5/src/codecs/server.rs:190-256 | when each violation of a login is reported, for every buffer: earlier fields first, encodings last |
| `CodecTables.RequestViolations` | noxen-socks5/src/codecs/server.rs:328-432 | when each violation of a request is reported, for every buffer |
| `Utf8Text.TextIff` | noxen-socks5/src/codecs/server.rs:422-432 | the byte strings accepted as text are exactly the UTF-8 encodings of sequences of Unicode scalar values |
| `CodecLaws.PrefixStable` | noxen-socks5/src/codecs/server.rs:73-443 | for all three decoders a frame or error decided on a buffer is decided alike on every extension within the limit, with the extension left over |
| `CodecLaws.IncompleteOnPrefixes` | noxen-socks5/src/codecs/server.rs:73-443 | every prefix of an incomplete buffer is incomplete |
| `CodecLaws.LimitsExact` | noxen-socks5/src/messages.rs:32-54 | an incomplete buffer is strictly shorter than the limit, a buffer is too large iff it exceeds the limit, and a frame fits into it and is not empty |
| `CodecLaws.LimitsTight` | noxen-socks5/src/messages.rs:32-54 | one byte below each limit a buffer can still be incomplete |
| `CodecLaws.AcceptedOnLastByte` | noxen-socks5/src/codecs/server.rs:104-129 | a frame is incomplete on every proper prefix and accepted as soon as its last byte is there, whatever follows |
| `CodecLaws.DecodesExactlyThePrinted` | noxen-socks5/src/codecs/server.rs:73-443 | against printers written from the wire formats: a buffer decodes to message m using n bytes iff it fits and its first n bytes are a wire form of m |
| `CodecLaws.MethodsAreTheKnownOnes` | noxen-socks5/src/codecs/server.rs:113-126 | the decoded methods are the order-preserving subsequence of the known method bytes |
| `CodecLaws.OfferedIffByteOffered` | noxen-socks5/src/codecs/server.rs:113-126 | a method is decoded iff its byte was offered |
| `CodecLaws.NoMethodDecodedIff` | noxen-socks5/src/codecs/server.rs:113-126 | the decoded list is empty iff no offered byte is a known method |
| `CodecLaws.GreetingWithoutMethods` | noxen-socks5/src/codecs/server.rs:113-126 | a greeting that offers one unknown byte decodes to an empty list |
| `CodecLaws.NameLengthIff` | noxen-socks5/src/codecs/server.rs:422-432 | a decoded name has 1 to 255 bytes iff its length byte is not zero |
| `CodecLaws.EmptyNameDecodes` | noxen-socks5/src/codecs/server.rs:422-432 | a request for a name of length 0 is accepted |
| `CodecLaws.WrittenIsReadable` | noxen-socks5/src/codecs/server.rs:448-485 | a client parser reads an encoded message back, with the bytes after it, iff a bound name has at most 255 bytes (IPv6 flow information and scope are not sent) |
| `ClientView.ReadInvertsWrite` | noxen-socks5/src/codecs/server.rs:138-485 | reading the concatenated encodings of well-phased messages gives the messages in order and then goes on with what follows |
| `FramedStream.RecvSeesWholeStream` | noxen-proxy/src/handler/socks5/state.rs:172-185 | a receive gives what one decode of the whole stream, cut at the limit, gives, and takes exactly the frame's bytes off it, unless a read overfills the buffer |
| `FramedStream.StreamEndTold` | noxen-proxy/src/handler/socks5/state.rs:172-185 | the error of a receive whose stream ends before its frame: a disconnect, a truncated frame, or the read error |
| `FramedStream.RecvChunkingIndependentIff` | noxen-proxy/src/handler/socks5/state.rs:172-185 | one receive is independent of how the stream is split into reads iff the stream fits into the phase's limit |
| `FramedStream.RecvAlignedFrame` | noxen-proxy/src/handler/socks5/state.rs:172-185 | chunks that carry exactly one frame are consumed whole and nothing behind them is touched |
| `HandshakeLaws.ServeChunkingIndependent` | noxen-proxy/src/handler/socks5/state.rs:280-436 | two splittings of the same client bytes give the same messages, server bytes, outcome and stream offset across the codec swaps, unless a read overfills the buffer |
| `HandshakeLaws.ServeChunkingIndependentIff` | noxen-proxy/src/handler/socks5/state.rs:280-436 | a whole handshake is independent of chunking iff the client's bytes fit into a greeting frame (257 bytes) |
| `Intake.BytesConserved` | noxen-proxy/src/handler/socks5/state.rs:159-185 | in every run the client's bytes are the decoded frames, in order, then the read buffer, then the unread chunks, and each frame decodes to the message acted upon |
| `Intake.TunnelLosesNothingIff` | noxen-proxy/src/handler/socks5/state.rs:495-497 | the tunnel starts at the byte after the request frame iff the read buffer is empty, iff some read ended exactly there |
| `Pipelining.LockStepLosesNothing` | noxen-proxy/src/handler/socks5/state.rs:159-185 | for a client that sends well-formed frames: no receive reads what is sent only after a later server message iff every receive, so each of the codec swaps and the tunnel, leaves the buffer empty; then the buffer is never overfilled and the tunnel gets everything after the request |
| `Pipelining.MessageByMessageWaits` | noxen-proxy/src/handler/socks5/state.rs:172-185 | a client is such a client if no read spans two of its messages, however each is split into reads |
| `Pipelining.NoSplittingLosesIff` | noxen-proxy/src/handler/socks5/state.rs:491-501 | for a stream of frames and payload that some splitting into reads brings to a tunnel: no splitting that does so loses a byte iff there is no payload or the request has the maximum size of 262 bytes |
| `Pipelining.TunnelLeavesRoom` | noxen-proxy/src/handler/socks5/state.rs:491-501 | what is lost and what the tunnel reads make up the payload, and only as much is lost as fits into the read buffer beside the request |
| `Pipelining.SendingAheadLoses` | noxen-proxy/src/handler/socks5/state.rs:491-501 | whatever arrives in the same read as the request, if both fit into the read buffer, is lost to the tunnel |
| `Pipelining.OneByteLost` | noxen-proxy/src/handler/socks5/state.rs:491-501 | the one input of a request to 127.0.0.1:80 read together with one byte: a tunnel that never carries it |
| `Transcripts.TranscriptSafe` | noxen-proxy/src/handler/socks5/state.rs:280-392 | every run's server messages are legal for the protocol automaton; a tunnel is returned iff one or two success replies were delivered last; the write side is shut iff the last message is a refusal, and nothing follows it |
| `Transcripts.TunnelAnswersRequest` | noxen-proxy/src/handler/socks5/state.rs:421-604 | a tunnel follows exactly one success reply for CONNECT, exactly two for BIND, and no other request |
| `Transcripts.ClientReadsTranscript` | noxen-proxy/src/handler/socks5/state.rs:192-219 | a client that reads the bytes written in any run gets exactly the delivered messages back, followed by anything only if a send broke; the bytes are a beginning of the encoded messages; only IP addresses are sent, so the length cast never truncates |
| `Language.TranscriptLanguage` | noxen-proxy/src/handler/socks5/state.rs:280-714 | the transcripts of all runs in all environments are exactly those that the automaton allows |
| `Answered.RequestIsAnswered` | noxen-proxy/src/handler/socks5/state.rs:421-634 | in every run a request gets exactly the replies it calls for: CONNECT the bound address or the error's code; BIND the listening address and then the peer's, or the code of what failed, or host unreachable if nobody came in time; UDP ASSOCIATE a refusal; and without a request there is no reply |
| `Answered.LoginIsAnswered` | noxen-proxy/src/handler/socks5/state.rs:355-392 | credentials are answered by success iff the provider accepts them; after a failure nothing is sent or received |
| `Answered.NoMethodIsRefused` | noxen-proxy/src/handler/socks5/state.rs:318-329 | a client without an acceptable method gets that refusal and nothing else |
| `Answered.BrokenSendEndsRun` | noxen-proxy/src/handler/socks5/state.rs:192-233 | a message is delivered iff the network lets it through, one that breaks is the last, and its failure is the run's error unless it was itself a refusal |
| `Answered.EveryEndIsTold` | noxen-proxy/src/handler/socks5/state.rs:172-436 | a run without a tunnel ends by a refusal, a broken send, or the error that the client's remaining bytes and the end of its stream are for the message that was due |
| `Access.SelectionFromOfferedBytes` | noxen-proxy/src/handler/socks5/state.rs:289-329 | the first message of every run, sent iff a greeting was received, is the selection from the raw METHODS bytes: username/password if offered, else no authentication if offered and allowed, else refusal |
| `Access.TunnelOnlyForAdmitted` | noxen-proxy/src/handler/socks5/state.rs:280-392 | a tunnel is returned only after a successful login or a no-authentication selection that the configuration allows and the client offered |
| `Socks5Handling.Socks5Handler.IntoState` | noxen-proxy/src/handler/socks5/state.rs:159-165 | the codec swap keeps buffers and socket |
| `Socks5Handling.Socks5Handler.Receive` | noxen-proxy/src/handler/socks5/state.rs:172-185 | the decode-then-read loop is the receive step of the handshake |
| `Socks5Handling.Socks5Handler.Send` | noxen-proxy/src/handler/socks5/state.rs:192-198 | encodes and writes a message, or a part of it when the send breaks |
| `Socks5Handling.Socks5Handler.SendAndClose` | noxen-proxy/src/handler/socks5/state.rs:208-233 | sends as far as possible, then shuts the write side in any case |
| `Socks5Handling.Socks5Handler.NegotiateMethod` | noxen-proxy/src/handler/socks5/state.rs:280-330 | is the negotiation step of the handshake and leaves the request codec in force when it succeeds |
| `Socks5Handling.Socks5Handler.AuthenticateClient` | noxen-proxy/src/handler/socks5/state.rs:355-392 | is the authentication step of the handshake |
| `Socks5Handling.Socks5Handler.HandleRequest` | noxen-proxy/src/handler/socks5/state.rs:421-436 | is the request step of the handshake |
| `Socks5Handling.Socks5Handler.ConnectCommand` | noxen-proxy/src/handler/socks5/state.rs:462-500 | answers CONNECT as the handshake does |
| `Socks5Handling.Socks5Handler.BindCommand` | noxen-proxy/src/handler/socks5/state.rs:529-604 | answers BIND as the handshake does |
| `Socks5Handling.Socks5Handler.ErrorReply` | noxen-proxy/src/handler/socks5/state.rs:703-714 | sends the error's reply code and closes |
| `Socks5Handling.ServeClient` | noxen-proxy/src/server/mod.rs:85-118 | the handler as it runs is the handshake that the laws are about; the relay gets the unread chunks |
| `ServerLifecycle.ServerProcess.Acquire` | noxen-proxy/src/server/mod.rs:34-39 | takes a permit if permits are limited |
| `ServerLifecycle.ServerProcess.Accept` | noxen-proxy/src/server/mod.rs:41-60 | spawns a handler that owns the permit and a completion sender |
| `ServerLifecycle.ServerProcess.Close` | noxen-proxy/src/server/mod.rs:161-178 | the listener future ends: its permit, the close signal and its sender are dropped |
| `ServerLifecycle.ServerProcess.Advance` | noxen-proxy/src/server/mod.rs:85-118 | a handler enters its next phase |
| `ServerLifecycle.ServerProcess.HandlerReturns` | noxen-proxy/src/server/mod.rs:77-131 | a handler's run returns and drops its completion sender |
| `ServerLifecycle.ServerProcess.DropPermit` | noxen-proxy/src/server/mod.rs:51-60 | the task drops its permit after the handler has returned |
| `ServerLifecycle.Execute` | noxen-proxy/src/server/mod.rs:134-190 | under any scheduler the server takes those of the offered steps that are ready at their turn, and they form a run of the transition system |
| `ServerLifecycle.OfferedRunIsDone` | noxen-proxy/src/server/mod.rs:134-190 | every run of the transition system is taken as it is offered |
| `ServerReach.ReachedIff` | noxen-proxy/src/server/mod.rs:32-190 | exactly which states the server can reach, for every limit and timeout: senders, permits, which tasks could be spawned beside which, what the drain and its two ends allow |
| `ServerReach.ServesAsManyAsAllowed` | noxen-proxy/src/server/mod.rs:34-60 | while listening, n handlers can be live at once iff there is no limit or n does not exceed it |
| `ServerReach.ListenerEndsIff` | noxen-proxy/src/server/mod.rs:161-185 | the listener ends by an accept error or the signal only, and the drain begins then, with its deadline |
| `ServerReach.HandlerEndsWhen` | noxen-proxy/src/server/mod.rs:77-131 | in which phases a handler can fail, be interrupted or finish; each leaves one live handler less and its permit still out |
| `ServerLaws.ConnectionLimit` | noxen-proxy/src/server/mod.rs:32-62 | with a limit, free permits + the loop's permit + permits of tasks = limit in every reachable state, so live handlers never exceed it |
| `ServerLaws.PermitsComeBack` | noxen-proxy/src/server/mod.rs:34-60 | waiting for a permit, all are free iff all tasks are gone, and the loop can go on iff tasks hold fewer than the limit: no path leaks a permit |
| `ServerLaws.SendersCountHandlers` | noxen-proxy/src/server/mod.rs:44-49 | completion senders = live handlers, plus one while the listener holds its own |
| `ServerLaws.NoHandlerAfterStop` | noxen-proxy/src/server/mod.rs:161-178 | after the listener future is gone no handler is added and live handlers only become fewer |
| `ServerLaws.DrainVerdict` | noxen-proxy/src/server/mod.rs:181-189 | the drain is graceful iff no handler is live; a forced exit happens only at the deadline, and with a positive timeout iff some relay is still running then |
| `ServerLaws.IdleDrainIsGraceful` | noxen-proxy/src/server/mod.rs:181-189 | once no handler is live during the drain, it cannot end by force |
| `ServerLaws.DrainTerminates` | noxen-proxy/src/server/mod.rs:181-189 | the drain ends by its deadline whatever handlers and peers do: every step uses up a bounded measure and the server always has a step of its own |

## Left out

- Relay strategies and tunnels (noxen-proxy/src/relay): a tunnel is a terminal value; UDP relay is not implemented in the source either.
- Configuration loading, telemetry, signal handling, logging, tracing spans: no property of the protocol.
- The resolver, sockets and the operating system: latencies and outcomes that the environment fixes. Error texts are dropped; error kinds that the code does not tell apart are one kind.
- The runtime's timer granularity, scheduling and cooperative budgeting: an ideal clock. Panics of a task and a closed semaphore do not occur in the model.
- The framed reader of the codec library: its decode-then-read loop, its end of stream and the buffer kept across codec swaps only. A single read may deliver any number of bytes; the library's buffer growth is not modelled.
- Cancelling attempts when a stream is returned, and cancelling a handshake half-way at shutdown: the first has no effect on the result, the second is a task that returns in `ServerLifecycle`.
- `AddressIter`, `Address::addr`, builder setters, default configuration values and `StaticAuthProvider`: definitions without a property of their own.
- noxen-socks5/src/codecs/client.rs is not part of this model; the printers and the client parser are written from the wire formats.
- HappyEyeballs.ConnectByName: an address that is resolved twice is attempted twice, with the same fate both times.
- StableSort.SortIsTheStableSort: the library's sorting algorithm is not modelled; a stable sort is determined by its result.
- ServerLaws.DrainVerdict: with a shutdown timeout of zero a forced exit can also meet handlers that have not yet seen the close signal, so the equivalence with running relays is stated for positive timeouts.
- ConnectEngine.ConnectToAddresses: takes the rest of the iterator as a list, in attempt order, with the fate of each address; `None` from the set of futures cannot occur because the branch is guarded by its being non-empty.
