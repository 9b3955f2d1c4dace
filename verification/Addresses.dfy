/** From DNS answers to the attempt order: resolve, sort by preference, interleave. */
module Addresses {
  import opened Wire

  type Segments = s: seq<bv16> | |s| == 8 witness seq(8, _ => 0)

  datatype IpAddr = V4(octets: Octets4) | V6(segments: Segments)

  // ---------- preference ----------

  predicate IsUniqueLocal(s: Segments) {
    s[0] & 0xFE00 == 0xFC00
  }

  predicate IsLinkLocal(s: Segments) {
    s[0] & 0xFFC0 == 0xFE80
  }

  predicate IsLoopback6(s: Segments) {
    s == [0, 0, 0, 0, 0, 0, 0, 1]
  }

  function Rank6(s: Segments): nat {
    if IsLoopback6(s) then 0
    else if IsUniqueLocal(s) then 1
    else if IsLinkLocal(s) then 2
    else 3
  }

  predicate IsPrivate(o: Octets4) {
    || o[0] == 10
    || (o[0] == 172 && 16 <= o[1] <= 31)
    || (o[0] == 192 && o[1] == 168)
  }

  function Rank4(o: Octets4): nat {
    if o[0] == 127 then 0
    else if IsPrivate(o) then 1
    else 2
  }

  const RANKS: nat := 4

  function Rank(a: IpAddr): (k: nat)
    ensures k < RANKS
  {
    match a
    case V6(s) => Rank6(s)
    case V4(o) => Rank4(o)
  }

  /** The mask tests are the ranges fc00::/7 and fe80::/10, which exclude each other and the loopback address. */
  lemma MasksAreRanges(s: Segments)
    ensures IsUniqueLocal(s) <==> 0xFC00 <= s[0] <= 0xFDFF
    ensures IsLinkLocal(s) <==> 0xFE80 <= s[0] <= 0xFEBF
    ensures !(IsUniqueLocal(s) && IsLinkLocal(s))
    ensures IsLoopback6(s) ==> !IsUniqueLocal(s) && !IsLinkLocal(s)
  {
    var x := s[0];
    assert x & 0xFE00 == 0xFC00 <==> 0xFC00 <= x <= 0xFDFF;
    assert x & 0xFFC0 == 0xFE80 <==> 0xFE80 <= x <= 0xFEBF;
  }

  // ---------- interleaving ----------

  /** What the iterator has still to yield. */
  function Upcoming(v6: seq<IpAddr>, v4: seq<IpAddr>, ipv6Turn: bool): seq<IpAddr>
    decreases |v6| + |v4|
  {
    if v6 == [] && v4 == [] then []
    else if ipv6Turn then
      if v6 != [] then [v6[0]] + Upcoming(v6[1..], v4, false)
      else [v4[0]] + Upcoming(v6, v4[1..], true)
    else
      if v4 != [] then [v4[0]] + Upcoming(v6, v4[1..], true)
      else [v6[0]] + Upcoming(v6[1..], v4, false)
  }

  /** One from each family in turn, as long as both last. */
  function Pairs(v6: seq<IpAddr>, v4: seq<IpAddr>): seq<IpAddr> {
    if v6 == [] || v4 == [] then [] else [v6[0], v4[0]] + Pairs(v6[1..], v4[1..])
  }

  function Shorter(v6: seq<IpAddr>, v4: seq<IpAddr>): nat {
    if |v6| <= |v4| then |v6| else |v4|
  }

  lemma {:induction false} PairsAlternate(v6: seq<IpAddr>, v4: seq<IpAddr>, k: nat)
    requires k < Shorter(v6, v4)
    ensures |Pairs(v6, v4)| == 2 * Shorter(v6, v4)
    ensures Pairs(v6, v4)[2 * k] == v6[k] && Pairs(v6, v4)[2 * k + 1] == v4[k]
  {
    if Shorter(v6, v4) == 1 {
      assert Pairs(v6[1..], v4[1..]) == [];
    } else {
      PairsAlternate(v6[1..], v4[1..], if k > 0 then k - 1 else 0);
    }
  }

  lemma {:induction false} OnlyOneFamily(v6: seq<IpAddr>, v4: seq<IpAddr>, turn: bool)
    requires v6 == [] || v4 == []
    ensures Upcoming(v6, v4, turn) == v6 + v4
    decreases |v6| + |v4|
  {
    if v6 != [] {
      OnlyOneFamily(v6[1..], v4, false);
      assert v6 + v4 == [v6[0]] + (v6[1..] + v4);
    } else if v4 != [] {
      OnlyOneFamily(v6, v4[1..], true);
      assert v6 + v4 == [v4[0]] + (v6 + v4[1..]);
    }
  }

  /** The closed form: alternate up to the shorter length, then the rest of the longer list. */
  lemma {:induction false} InterleavingClosedForm(v6: seq<IpAddr>, v4: seq<IpAddr>)
    ensures var m := Shorter(v6, v4); Upcoming(v6, v4, true) == Pairs(v6, v4) + (v6[m..] + v4[m..])
    decreases |v6|
  {
    var m := Shorter(v6, v4);
    if m == 0 {
      OnlyOneFamily(v6, v4, true);
      assert v6[0..] == v6 && v4[0..] == v4;
    } else {
      var x, y := v6[1..], v4[1..];
      InterleavingClosedForm(x, y);
      assert x[m - 1..] == v6[m..] && y[m - 1..] == v4[m..];
      assert Upcoming(v6, v4, true) == [v6[0]] + Upcoming(x, v4, false);
      assert Upcoming(x, v4, false) == [v4[0]] + Upcoming(x, y, true);
      TwoAhead(v6[0], v4[0], Pairs(x, y), v6[m..] + v4[m..]);
    }
  }

  lemma TwoAhead(a: IpAddr, b: IpAddr, s: seq<IpAddr>, t: seq<IpAddr>)
    ensures [a] + ([b] + (s + t)) == ([a, b] + s) + t
  {
  }

  ghost predicate Homogeneous(v6: seq<IpAddr>, v4: seq<IpAddr>) {
    (forall k :: 0 <= k < |v6| ==> v6[k].V6?) && (forall k :: 0 <= k < |v4| ==> v4[k].V4?)
  }

  function OfFamily(s: seq<IpAddr>, six: bool): seq<IpAddr> {
    if s == [] then []
    else (if s[0].V6? == six then [s[0]] else []) + OfFamily(s[1..], six)
  }

  /** Interleaving yields every address of both lists once. */
  lemma {:induction false} InterleavingPermutes(v6: seq<IpAddr>, v4: seq<IpAddr>, turn: bool)
    ensures multiset(Upcoming(v6, v4, turn)) == multiset(v6) + multiset(v4)
    decreases |v6| + |v4|
  {
    if v6 != [] && (turn || v4 == []) {
      InterleavingPermutes(v6[1..], v4, false);
      assert v6 == [v6[0]] + v6[1..];
    } else if v4 != [] {
      InterleavingPermutes(v6, v4[1..], true);
      assert v4 == [v4[0]] + v4[1..];
    }
  }

  /** Interleaving keeps each family's order. */
  lemma {:induction false} InterleavingKeepsOrder(v6: seq<IpAddr>, v4: seq<IpAddr>, turn: bool)
    requires Homogeneous(v6, v4)
    ensures OfFamily(Upcoming(v6, v4, turn), true) == v6
    ensures OfFamily(Upcoming(v6, v4, turn), false) == v4
    decreases |v6| + |v4|
  {
    if v6 != [] && (turn || v4 == []) {
      InterleavingKeepsOrder(v6[1..], v4, false);
      HeadFirst(v6[0], Upcoming(v6[1..], v4, false));
    } else if v4 != [] {
      InterleavingKeepsOrder(v6, v4[1..], true);
      HeadFirst(v4[0], Upcoming(v6, v4[1..], true));
    }
  }

  lemma HeadFirst(a: IpAddr, s: seq<IpAddr>)
    ensures OfFamily([a] + s, true) == (if a.V6? then [a] else []) + OfFamily(s, true)
    ensures OfFamily([a] + s, false) == (if a.V6? then [] else [a]) + OfFamily(s, false)
  {
    assert ([a] + s)[1..] == s;
  }

  class InterleavedAddressesIter {
    var ipv6: seq<IpAddr>
    var ipv4: seq<IpAddr>
    var ipv6Turn: bool

    ghost function Rest(): seq<IpAddr>
      reads this
    {
      Upcoming(ipv6, ipv4, ipv6Turn)
    }

    constructor (v6: seq<IpAddr>, v4: seq<IpAddr>)
      ensures ipv6 == v6 && ipv4 == v4 && ipv6Turn
    {
      ipv6, ipv4, ipv6Turn := v6, v4, true;
    }

    /** Takes the next address off; once there is none, there never is again. */
    method Next() returns (r: Option<IpAddr>)
      modifies this
      ensures old(Rest()) == (if r.Some? then [r.value] + Rest() else [])
      ensures r.None? ==> unchanged(this) && Rest() == []
    {
      if ipv6Turn {
        if ipv6 != [] {
          r := Some(ipv6[0]);
          ipv6, ipv6Turn := ipv6[1..], false;
        } else if ipv4 != [] {
          r := Some(ipv4[0]);
          ipv4 := ipv4[1..];
        } else {
          r := None;
        }
      } else {
        if ipv4 != [] {
          r := Some(ipv4[0]);
          ipv4, ipv6Turn := ipv4[1..], true;
        } else if ipv6 != [] {
          r := Some(ipv6[0]);
          ipv6 := ipv6[1..];
        } else {
          r := None;
        }
      }
    }

    method Len() returns (n: nat)
      ensures n == |Rest()|
    {
      n := |ipv6| + |ipv4|;
      UpcomingLength(ipv6, ipv4, ipv6Turn);
    }

    /** The hint is exact: both bounds are the number of addresses still to come. */
    method SizeHint() returns (lower: nat, upper: Option<nat>)
      ensures lower == |Rest()| && upper == Some(|Rest()|)
    {
      lower := |ipv6| + |ipv4|;
      upper := Some(|ipv6| + |ipv4|);
      UpcomingLength(ipv6, ipv4, ipv6Turn);
    }
  }

  lemma {:induction false} UpcomingLength(v6: seq<IpAddr>, v4: seq<IpAddr>, turn: bool)
    ensures |Upcoming(v6, v4, turn)| == |v6| + |v4|
    decreases |v6| + |v4|
  {
    if v6 != [] || v4 != [] {
      if v6 != [] && (turn || v4 == []) {
        UpcomingLength(v6[1..], v4, false);
      } else {
        UpcomingLength(v6, v4[1..], true);
      }
    }
  }
}
