/** Errors of a client connection, and the reply code a client sees for each. */
module Errors {
  import opened Wire

  /** The kinds of input/output error that the proxy tells apart; all others are `KindOther`. */
  datatype IoKind =
    | KindConnectionRefused
    | KindNetworkUnreachable
    | KindHostUnreachable
    | KindTimedOut
    | KindNotFound
    | KindAddrNotAvailable
    | KindUnexpectedEof
    | KindOther

  datatype AuthError = InvalidCredentials | AuthIo(kind: IoKind) | Internal

  datatype Socks5Error =
    | Io(kind: IoKind)
    | Protocol(error: ProtocolError)
    | AuthenticationFailed(reason: AuthError)
    | NoAcceptableMethod
    | CommandNotSupportedError
    | TargetConnectionFailed(kind: IoKind)
    | DnsResolutionFailed
    | Timeout

  datatype HappyEyeballsError =
    | HeIo(kind: IoKind)
    | DnsResolution
    | HeTimeout
    | NoAddressesResolved
    | AllAttemptsFailed(errors: seq<IoKind>)

  function KindReply(k: IoKind): Reply {
    match k
    case KindConnectionRefused => ConnectionRefused
    case KindNotFound => HostUnreachable
    case KindAddrNotAvailable => HostUnreachable
    case KindNetworkUnreachable => NetworkUnreachable
    case _ => GeneralFailure
  }

  function ToReply(e: Socks5Error): Reply {
    match e
    case TargetConnectionFailed(k) => KindReply(k)
    case Io(k) => KindReply(k)
    case Timeout => HostUnreachable
    case DnsResolutionFailed => HostUnreachable
    case _ => GeneralFailure
  }

  const PRIORITY_ORDER: seq<IoKind> := [KindConnectionRefused, KindNetworkUnreachable, KindTimedOut]

  /** The first kind of `order` that occurs among the errors. */
  function FindKind(order: seq<IoKind>, errors: seq<IoKind>): Option<IoKind> {
    if order == [] then None
    else if order[0] in errors then Some(order[0])
    else FindKind(order[1..], errors)
  }

  function Representative(errors: seq<IoKind>): IoKind
    requires errors != []
  {
    match FindKind(PRIORITY_ORDER, errors)
    case Some(k) => k
    case None => errors[0]
  }

  function FromHappyEyeballs(e: HappyEyeballsError): Socks5Error {
    match e
    case HeIo(k) => TargetConnectionFailed(k)
    case DnsResolution => DnsResolutionFailed
    case HeTimeout => Timeout
    case NoAddressesResolved => DnsResolutionFailed
    case AllAttemptsFailed(errors) =>
      if errors == [] then TargetConnectionFailed(KindOther)
      else TargetConnectionFailed(Representative(errors))
  }

  /** The reply for a list of failed attempts. */
  function FailureReply(errors: seq<IoKind>): Reply {
    ToReply(FromHappyEyeballs(AllAttemptsFailed(errors)))
  }

  ghost predicate HasPriorityKind(errors: seq<IoKind>) {
    KindConnectionRefused in errors || KindNetworkUnreachable in errors || KindTimedOut in errors
  }

  lemma RepresentativeMeaning(errors: seq<IoKind>)
    requires errors != []
    ensures Representative(errors) ==
            if KindConnectionRefused in errors then KindConnectionRefused
            else if KindNetworkUnreachable in errors then KindNetworkUnreachable
            else if KindTimedOut in errors then KindTimedOut
            else errors[0]
  {
    var second, third: seq<IoKind> := [KindNetworkUnreachable, KindTimedOut], [KindTimedOut];
    assert PRIORITY_ORDER[1..] == second && second[1..] == third && third[1..] == [];
    assert FindKind(third, errors) == if KindTimedOut in errors then Some(KindTimedOut) else None;
    assert FindKind(second, errors) ==
           if KindNetworkUnreachable in errors then Some(KindNetworkUnreachable) else FindKind(third, errors);
  }

  /** The reply for failed attempts, decided by which kinds occur and, failing those, by the first failure. */
  lemma FailureReplyMeaning(errors: seq<IoKind>)
    ensures FailureReply(errors) == ConnectionRefused <==> KindConnectionRefused in errors
    ensures FailureReply(errors) == NetworkUnreachable <==>
            KindConnectionRefused !in errors && KindNetworkUnreachable in errors
    ensures FailureReply(errors) == HostUnreachable <==>
            errors != [] && !HasPriorityKind(errors) && errors[0] in {KindNotFound, KindAddrNotAvailable}
    ensures FailureReply(errors) in {ConnectionRefused, NetworkUnreachable, HostUnreachable, GeneralFailure}
  {
    if errors != [] {
      RepresentativeMeaning(errors);
    }
  }

  /** Failures of kind "host unreachable" alone are answered by a general failure; among others they are answered
      by an unreachable host exactly when no priority kind occurs and the first failure is of another kind that
      stands for it. */
  lemma HostUnreachableAnswered(errors: seq<IoKind>)
    requires KindHostUnreachable in errors
    ensures FailureReply(errors) == HostUnreachable <==>
            !HasPriorityKind(errors) && errors[0] in {KindNotFound, KindAddrNotAvailable}
    ensures (forall k :: 0 <= k < |errors| ==> errors[k] == KindHostUnreachable) ==> FailureReply(errors) == GeneralFailure
  {
    FailureReplyMeaning(errors);
    if forall k :: 0 <= k < |errors| ==> errors[k] == KindHostUnreachable {
      assert errors[0] == KindHostUnreachable && !HasPriorityKind(errors);
    }
  }

  lemma HostUnreachableIsGeneralFailure()
    ensures FailureReply([KindHostUnreachable]) == GeneralFailure
  {
    HostUnreachableAnswered([KindHostUnreachable]);
  }

  /** The code for every error of a connection. */
  lemma ReplyTable(e: Socks5Error)
    ensures ToReply(e) == ConnectionRefused <==> e in {TargetConnectionFailed(KindConnectionRefused), Io(KindConnectionRefused)}
    ensures ToReply(e) == NetworkUnreachable <==> e in {TargetConnectionFailed(KindNetworkUnreachable), Io(KindNetworkUnreachable)}
    ensures ToReply(e) == HostUnreachable <==>
            e in {Timeout, DnsResolutionFailed, TargetConnectionFailed(KindNotFound), TargetConnectionFailed(KindAddrNotAvailable),
                  Io(KindNotFound), Io(KindAddrNotAvailable)}
    ensures ToReply(e) in {ConnectionRefused, NetworkUnreachable, HostUnreachable, GeneralFailure}
    ensures e.Io? ==> KindReply(e.kind) == ToReply(e)
  {
  }

  /** The errors of connecting to a name, other than those of the attempts. */
  lemma NameErrorTable(k: IoKind)
    ensures FromHappyEyeballs(NoAddressesResolved) == FromHappyEyeballs(DnsResolution) == DnsResolutionFailed
    ensures FromHappyEyeballs(HeTimeout) == Timeout && FromHappyEyeballs(HeIo(k)) == TargetConnectionFailed(k)
    ensures FailureReply([]) == GeneralFailure
  {
  }

  ghost predicate Reordered(p: seq<IoKind>, q: seq<IoKind>) {
    multiset(p) == multiset(q)
  }

  /** The reply does not depend on the order in which attempts failed exactly when a priority kind
      occurs or all failures would be answered alike. */
  lemma ReplyOrderFreeIff(errors: seq<IoKind>)
    requires errors != []
    ensures (forall p :: Reordered(p, errors) ==> FailureReply(p) == FailureReply(errors)) <==>
            HasPriorityKind(errors) || AnsweredAlike(errors)
  {
    if HasPriorityKind(errors) || AnsweredAlike(errors) {
      forall p | Reordered(p, errors)
        ensures FailureReply(p) == FailureReply(errors)
      {
        SameMembers(p, errors);
        RepresentativeMeaning(errors);
        RepresentativeMeaning(p);
        assert p[0] in errors;
      }
    } else {
      var i :| 0 <= i < |errors| && KindReply(errors[i]) != KindReply(errors[0]);
      var p := MovedToFront(errors, i);
      SameMembers(p, errors);
      RepresentativeMeaning(errors);
      RepresentativeMeaning(p);
    }
  }

  ghost predicate AnsweredAlike(errors: seq<IoKind>) {
    forall i :: 0 <= i < |errors| ==> KindReply(errors[i]) == KindReply(errors[0])
  }

  ghost function MovedToFront(errors: seq<IoKind>, i: nat): (p: seq<IoKind>)
    requires i < |errors|
    ensures Reordered(p, errors) && p != [] && p[0] == errors[i]
  {
    assert errors == errors[..i] + [errors[i]] + errors[i + 1..];
    [errors[i]] + errors[..i] + errors[i + 1..]
  }

  lemma SameMembers(p: seq<IoKind>, q: seq<IoKind>)
    requires Reordered(p, q)
    ensures forall k :: k in p <==> k in q
    ensures |p| == |q|
  {
    forall k
      ensures k in p <==> k in q
    {
      assert k in multiset(p) <==> k in multiset(q);
    }
    assert |multiset(p)| == |multiset(q)|;
  }
}
