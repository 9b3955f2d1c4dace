/** What the order of preference means for the attempt order, in terms of address ranges. */
module Preference {
  import opened Wire
  import opened StableSort
  import opened Addresses
  import opened HappyEyeballs

  datatype Class = Loopback6 | UniqueLocal | LinkLocal | Global | Loopback4 | Private | Public

  function Number(o: Octets4): int {
    0x100_0000 * (o[0] as int) + 0x1_0000 * (o[1] as int) + 0x100 * (o[2] as int) + (o[3] as int)
  }

  /** 127.0.0.0/8. */
  predicate InLoopback4(o: Octets4) {
    0x7F00_0000 <= Number(o) <= 0x7FFF_FFFF
  }

  /** 10.0.0.0/8, 172.16.0.0/12 and 192.168.0.0/16. */
  predicate InPrivate(o: Octets4) {
    || 0x0A00_0000 <= Number(o) <= 0x0AFF_FFFF
    || 0xAC10_0000 <= Number(o) <= 0xAC1F_FFFF
    || 0xC0A8_0000 <= Number(o) <= 0xC0A8_FFFF
  }

  /** ::1. */
  predicate InLoopback6(s: Segments) {
    s == [0, 0, 0, 0, 0, 0, 0, 1]
  }

  /** fc00::/7. */
  predicate InUniqueLocal(s: Segments) {
    0xFC00 <= s[0] <= 0xFDFF
  }

  /** fe80::/10. */
  predicate InLinkLocal(s: Segments) {
    0xFE80 <= s[0] <= 0xFEBF
  }

  predicate Belongs(a: IpAddr, c: Class) {
    match c
    case Loopback6 => a.V6? && InLoopback6(a.segments)
    case UniqueLocal => a.V6? && InUniqueLocal(a.segments)
    case LinkLocal => a.V6? && InLinkLocal(a.segments)
    case Global =>
      a.V6? && !InLoopback6(a.segments) && !InUniqueLocal(a.segments) && !InLinkLocal(a.segments)
    case Loopback4 => a.V4? && InLoopback4(a.octets)
    case Private => a.V4? && InPrivate(a.octets)
    case Public => a.V4? && !InLoopback4(a.octets) && !InPrivate(a.octets)
  }

  /** IPv6: loopback, unique local, link local, global; IPv4: loopback, private, public. */
  predicate Preferred(better: Class, worse: Class) {
    match better
    case Loopback6 => worse == UniqueLocal || worse == LinkLocal || worse == Global
    case UniqueLocal => worse == LinkLocal || worse == Global
    case LinkLocal => worse == Global
    case Loopback4 => worse == Private || worse == Public
    case Private => worse == Public
    case _ => false
  }

  function Among(s: seq<IpAddr>, c: Class): seq<IpAddr> {
    if s == [] then [] else (if Belongs(s[0], c) then [s[0]] else []) + Among(s[1..], c)
  }

  function RankOf(c: Class): nat {
    match c
    case Loopback6 => 0
    case UniqueLocal => 1
    case LinkLocal => 2
    case Global => 3
    case Loopback4 => 0
    case Private => 1
    case Public => 2
  }

  predicate IsSix(c: Class) {
    c in {Loopback6, UniqueLocal, LinkLocal, Global}
  }

  lemma RankIsClass(a: IpAddr, c: Class)
    ensures Belongs(a, c) <==> a.V6? == IsSix(c) && Rank(a) == RankOf(c)
  {
    match a {
      case V6(s) => MasksAreRanges(s);
      case V4(o) =>
        assert o[0] == 127 <==> InLoopback4(o);
        assert IsPrivate(o) <==> InPrivate(o);
    }
  }

  lemma {:induction false} AmongIsOfKey(s: seq<IpAddr>, c: Class)
    requires forall k :: 0 <= k < |s| ==> s[k].V6? == IsSix(c)
    ensures Among(s, c) == OfKey(s, Rank, RankOf(c))
  {
    if s != [] {
      RankIsClass(s[0], c);
      AmongIsOfKey(s[1..], c);
    }
  }

  lemma {:induction false} AmongOfFamily(s: seq<IpAddr>, c: Class)
    ensures Among(s, c) == Among(OfFamily(s, IsSix(c)), c)
    ensures forall k :: 0 <= k < |OfFamily(s, IsSix(c))| ==> OfFamily(s, IsSix(c))[k].V6? == IsSix(c)
  {
    if s != [] {
      AmongOfFamily(s[1..], c);
      RankIsClass(s[0], c);
      var f := OfFamily(s[1..], IsSix(c));
      if s[0].V6? == IsSix(c) {
        assert OfFamily(s, IsSix(c)) == [s[0]] + f && ([s[0]] + f)[1..] == f;
      } else {
        assert OfFamily(s, IsSix(c)) == f;
      }
    }
  }

  lemma {:induction false} AmongConcat(s: seq<IpAddr>, t: seq<IpAddr>, c: Class)
    ensures Among(s + t, c) == Among(s, c) + Among(t, c)
  {
    if s == [] {
      assert s + t == t;
    } else {
      assert (s + t)[1..] == s[1..] + t;
      AmongConcat(s[1..], t, c);
    }
  }

  lemma {:induction false} NoneAmong(s: seq<IpAddr>, c: Class)
    requires forall k :: 0 <= k < |s| ==> s[k].V6? != IsSix(c)
    ensures Among(s, c) == []
  {
    if s != [] {
      RankIsClass(s[0], c);
      NoneAmong(s[1..], c);
    }
  }

  lemma {:induction false} InFamily(s: seq<IpAddr>, a: IpAddr)
    ensures a in s ==> a in OfFamily(s, a.V6?)
  {
    if s != [] && s[0] != a {
      InFamily(s[1..], a);
    }
  }

  /** A family in order of rank is so wherever its addresses stand among others. */
  lemma {:induction false} RanksInOrder(s: seq<IpAddr>, six: bool, i: nat, j: nat)
    requires NonDecreasing(OfFamily(s, six), Rank)
    requires i < j < |s| && s[i].V6? == six == s[j].V6?
    ensures Rank(s[i]) <= Rank(s[j])
  {
    var f := OfFamily(s[1..], six);
    if s[0].V6? == six {
      assert OfFamily(s, six) == [s[0]] + f;
      forall a, b | 0 <= a < b < |f|
        ensures Rank(f[a]) <= Rank(f[b])
      {
        assert f[a] == OfFamily(s, six)[a + 1] && f[b] == OfFamily(s, six)[b + 1];
      }
    } else {
      assert OfFamily(s, six) == f;
    }
    if i > 0 {
      RanksInOrder(s[1..], six, i - 1, j - 1);
    } else {
      assert s[j] in s[1..];
      InFamily(s[1..], s[j]);
      var b :| 0 <= b < |f| && f[b] == s[j];
      assert OfFamily(s, six)[0] == s[0] && OfFamily(s, six)[b + 1] == s[j];
    }
  }

  /** The addresses of one class are attempted in the order in which they were resolved. */
  lemma ClassKeepsOrder(v6: seq<IpAddr>, v4: seq<IpAddr>, c: Class)
    requires Homogeneous(v6, v4)
    ensures Among(AttemptOrder(v6, v4), c) == Among(v6 + v4, c)
  {
    var order := AttemptOrder(v6, v4);
    var family := if IsSix(c) then v6 else v4;
    FamilyKeepsTies(v6, v4, IsSix(c));
    TiesInClass(order, family, c);
    AmongConcat(v6, v4, c);
    NoneAmong(if IsSix(c) then v4 else v6, c);
  }

  lemma FamilyKeepsTies(v6: seq<IpAddr>, v4: seq<IpAddr>, six: bool)
    requires Homogeneous(v6, v4)
    ensures SameTies(if six then v6 else v4, OfFamily(AttemptOrder(v6, v4), six), Rank, RANKS)
    ensures NonDecreasing(OfFamily(AttemptOrder(v6, v4), six), Rank)
  {
    AttemptOrderFaithful(v6, v4);
  }

  lemma TiesInClass(order: seq<IpAddr>, family: seq<IpAddr>, c: Class)
    requires SameTies(family, OfFamily(order, IsSix(c)), Rank, RANKS)
    requires forall k :: 0 <= k < |family| ==> family[k].V6? == IsSix(c)
    ensures Among(order, c) == Among(family, c)
  {
    AmongOfFamily(order, c);
    AmongIsOfKey(OfFamily(order, IsSix(c)), c);
    AmongIsOfKey(family, c);
    assert RankOf(c) < RANKS;
  }

  /** No address is attempted after one of a class to which its own is preferred. */
  lemma PreferredFirst(v6: seq<IpAddr>, v4: seq<IpAddr>, better: Class, worse: Class, i: nat, j: nat)
    requires Homogeneous(v6, v4) && Preferred(better, worse)
    requires i < |AttemptOrder(v6, v4)| && j < |AttemptOrder(v6, v4)|
    requires Belongs(AttemptOrder(v6, v4)[i], better) && Belongs(AttemptOrder(v6, v4)[j], worse)
    ensures i < j
  {
    var order := AttemptOrder(v6, v4);
    FamilyKeepsTies(v6, v4, IsSix(worse));
    WorseIsLater(order, better, worse, i, j);
  }

  lemma PreferredRank(better: Class, worse: Class)
    requires Preferred(better, worse)
    ensures RankOf(better) < RankOf(worse) && IsSix(better) == IsSix(worse)
  {
  }

  lemma WorseIsLater(order: seq<IpAddr>, better: Class, worse: Class, i: nat, j: nat)
    requires NonDecreasing(OfFamily(order, IsSix(worse)), Rank) && Preferred(better, worse)
    requires i < |order| && j < |order| && Belongs(order[i], better) && Belongs(order[j], worse)
    ensures i < j
  {
    RankIsClass(order[i], better);
    RankIsClass(order[j], worse);
    PreferredRank(better, worse);
    if j < i {
      RanksInOrder(order, IsSix(worse), j, i);
    }
  }

  /** The classes of a family cover it, and exclude each other. */
  lemma ClassesPartition(a: IpAddr)
    ensures exists c :: Belongs(a, c)
    ensures forall c, d :: Belongs(a, c) && Belongs(a, d) ==> c == d
  {
    var c := if a.V6? then
        (match Rank(a) case 0 => Loopback6 case 1 => UniqueLocal case 2 => LinkLocal case _ => Global)
      else (match Rank(a) case 0 => Loopback4 case 1 => Private case _ => Public);
    RankIsClass(a, c);
    assert Belongs(a, c);
    forall d | Belongs(a, d)
      ensures d == c
    {
      RankIsClass(a, d);
    }
  }

  /** The attempts alternate between the families, an IPv6 address first, until one family is used up. */
  lemma FamiliesAlternate(v6: seq<IpAddr>, v4: seq<IpAddr>, k: nat)
    requires Homogeneous(v6, v4) && k < |AttemptOrder(v6, v4)|
    ensures var m := if |v6| <= |v4| then |v6| else |v4|;
            AttemptOrder(v6, v4)[k].V6? <==> if k < 2 * m then k % 2 == 0 else |v6| > |v4|
  {
    var s6, s4 := SortByKey(v6, Rank, RANKS), SortByKey(v4, Rank, RANKS);
    SortKeepsFamilies(v6, v4);
    SortPermutes(v6, Rank, RANKS);
    SortPermutes(v4, Rank, RANKS);
    SameElements(s6, v6);
    SameElements(s4, v4);
    ClosedFormFamilies(s6, s4, k);
  }

  lemma ClosedFormFamilies(v6: seq<IpAddr>, v4: seq<IpAddr>, k: nat)
    requires Homogeneous(v6, v4) && k < |Upcoming(v6, v4, true)|
    ensures Upcoming(v6, v4, true)[k].V6? <==> if k < 2 * Shorter(v6, v4) then k % 2 == 0 else |v6| > |v4|
  {
    var m := Shorter(v6, v4);
    var pairs, tail := Pairs(v6, v4), v6[m..] + v4[m..];
    InterleavingClosedForm(v6, v4);
    if m == 0 {
      assert pairs == [];
    } else {
      PairsAlternate(v6, v4, if k < 2 * m then k / 2 else 0);
    }
    if k >= 2 * m {
      assert (pairs + tail)[k] == tail[k - 2 * m];
    } else {
      assert (pairs + tail)[k] == pairs[k];
      assert k == 2 * (k / 2) || k == 2 * (k / 2) + 1;
    }
  }
}
