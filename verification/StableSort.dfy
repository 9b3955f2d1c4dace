/** Stable sorting by a key, as the sequence library offers it. */
module StableSort {

  /** The elements with key `k`, in their order. */
  function OfKey<T>(s: seq<T>, key: T -> nat, k: nat): seq<T> {
    if s == [] then []
    else (if key(s[0]) == k then [s[0]] else []) + OfKey(s[1..], key, k)
  }

  /** Key by key from `k` up to `bound`, each in the order given. */
  function FromKey<T>(s: seq<T>, key: T -> nat, k: nat, bound: nat): seq<T>
    decreases bound - k
  {
    if k >= bound then [] else OfKey(s, key, k) + FromKey(s, key, k + 1, bound)
  }

  /** A stable sort of elements whose keys lie below `bound`. */
  function SortByKey<T>(s: seq<T>, key: T -> nat, bound: nat): seq<T> {
    FromKey(s, key, 0, bound)
  }

  ghost predicate KeysIn<T>(s: seq<T>, key: T -> nat, low: nat, bound: nat) {
    forall i :: 0 <= i < |s| ==> low <= key(s[i]) < bound
  }

  ghost predicate NonDecreasing<T>(s: seq<T>, key: T -> nat) {
    forall i, j :: 0 <= i < j < |s| ==> key(s[i]) <= key(s[j])
  }

  /** Both lists have the same elements for every key, in the same order. */
  ghost predicate SameTies<T>(s: seq<T>, t: seq<T>, key: T -> nat, bound: nat) {
    forall k :: 0 <= k < bound ==> OfKey(s, key, k) == OfKey(t, key, k)
  }

  lemma {:induction false} OfKeyMembers<T>(s: seq<T>, key: T -> nat, k: nat)
    ensures forall i :: 0 <= i < |OfKey(s, key, k)| ==> key(OfKey(s, key, k)[i]) == k
  {
    if s != [] {
      OfKeyMembers(s[1..], key, k);
    }
  }

  lemma {:induction false} OfKeyConcat<T>(s: seq<T>, t: seq<T>, key: T -> nat, k: nat)
    ensures OfKey(s + t, key, k) == OfKey(s, key, k) + OfKey(t, key, k)
  {
    if s == [] {
      assert s + t == t;
    } else {
      assert (s + t)[0] == s[0] && (s + t)[1..] == s[1..] + t;
      OfKeyConcat(s[1..], t, key, k);
    }
  }

  lemma {:induction false} OfKeyUniform<T>(s: seq<T>, key: T -> nat, j: nat, k: nat)
    requires forall i :: 0 <= i < |s| ==> key(s[i]) == j
    ensures OfKey(s, key, k) == if j == k then s else []
  {
    if s != [] {
      OfKeyUniform(s[1..], key, j, k);
    }
  }

  lemma {:induction false} FromKeyOrdered<T>(s: seq<T>, key: T -> nat, k: nat, bound: nat)
    ensures NonDecreasing(FromKey(s, key, k, bound), key) && KeysIn(FromKey(s, key, k, bound), key, k, bound)
    decreases bound - k
  {
    if k < bound {
      FromKeyOrdered(s, key, k + 1, bound);
      OfKeyMembers(s, key, k);
    }
  }

  lemma {:induction false} FromKeyTies<T>(s: seq<T>, key: T -> nat, k: nat, bound: nat, j: nat)
    ensures OfKey(FromKey(s, key, k, bound), key, j) == if k <= j < bound then OfKey(s, key, j) else []
    decreases bound - k
  {
    if k < bound {
      FromKeyTies(s, key, k + 1, bound, j);
      OfKeyMembers(s, key, k);
      OfKeyConcat(OfKey(s, key, k), FromKey(s, key, k + 1, bound), key, j);
      OfKeyUniform(OfKey(s, key, k), key, k, j);
    }
  }

  /** A list that is already in order is its elements key by key. */
  lemma {:induction false} OrderedIsFromKey<T>(t: seq<T>, key: T -> nat, k: nat, bound: nat)
    requires NonDecreasing(t, key) && KeysIn(t, key, k, bound)
    ensures t == FromKey(t, key, k, bound)
    decreases bound - k, |t|
  {
    if k >= bound {
      assert t == [];
    } else if t != [] && key(t[0]) == k {
      OrderedIsFromKey(t[1..], key, k, bound);
      ConsFromKey(t, key, k, bound);
    } else {
      OrderedIsFromKey(t, key, k + 1, bound);
      NoneOfKey(t, key, k);
    }
  }

  lemma ConsFromKey<T>(t: seq<T>, key: T -> nat, k: nat, bound: nat)
    requires t != [] && key(t[0]) == k < bound
    ensures FromKey(t, key, k, bound) == [t[0]] + FromKey(t[1..], key, k, bound)
  {
    DropSmallHead(t, key, k + 1, bound);
    Regroup(t[0], OfKey(t[1..], key, k), FromKey(t[1..], key, k + 1, bound));
  }

  lemma Regroup<T>(x: T, s: seq<T>, t: seq<T>)
    ensures ([x] + s) + t == [x] + (s + t)
  {
  }

  lemma {:induction false} NoneOfKey<T>(t: seq<T>, key: T -> nat, k: nat)
    requires forall i :: 0 <= i < |t| ==> key(t[i]) > k
    ensures OfKey(t, key, k) == []
  {
    if t != [] {
      NoneOfKey(t[1..], key, k);
    }
  }

  lemma {:induction false} DropSmallHead<T>(t: seq<T>, key: T -> nat, k: nat, bound: nat)
    requires t != [] && key(t[0]) < k
    ensures FromKey(t, key, k, bound) == FromKey(t[1..], key, k, bound)
    decreases bound - k
  {
    if k < bound {
      DropSmallHead(t, key, k + 1, bound);
    }
  }

  lemma {:induction false} SameTiesSameSort<T>(s: seq<T>, t: seq<T>, key: T -> nat, k: nat, bound: nat)
    requires SameTies(s, t, key, bound)
    ensures FromKey(s, key, k, bound) == FromKey(t, key, k, bound)
    decreases bound - k
  {
    if k < bound {
      SameTiesSameSort(s, t, key, k + 1, bound);
    }
  }

  /** The one and only stable sort: in order of the key, with ties in the order given. */
  lemma SortIsTheStableSort<T>(s: seq<T>, t: seq<T>, key: T -> nat, bound: nat)
    requires KeysIn(t, key, 0, bound)
    ensures t == SortByKey(s, key, bound) <==> NonDecreasing(t, key) && SameTies(s, t, key, bound)
  {
    FromKeyOrdered(s, key, 0, bound);
    forall k | 0 <= k < bound
      ensures OfKey(SortByKey(s, key, bound), key, k) == OfKey(s, key, k)
    {
      FromKeyTies(s, key, 0, bound, k);
    }
    if NonDecreasing(t, key) && SameTies(s, t, key, bound) {
      OrderedIsFromKey(t, key, 0, bound);
      SameTiesSameSort(s, t, key, 0, bound);
    }
  }

  /** Nothing is added or lost by sorting. */
  lemma {:induction false} SortPermutes<T>(s: seq<T>, key: T -> nat, bound: nat)
    requires KeysIn(s, key, 0, bound)
    ensures multiset(SortByKey(s, key, bound)) == multiset(s)
  {
    if s == [] {
      EmptySort(key, 0, bound);
    } else {
      SortPermutes(s[1..], key, bound);
      HeadGoesToItsKey(s, key, 0, bound);
      assert s == [s[0]] + s[1..];
    }
  }

  lemma {:induction false} EmptySort<T>(key: T -> nat, k: nat, bound: nat)
    ensures FromKey([], key, k, bound) == []
    decreases bound - k
  {
    if k < bound {
      EmptySort(key, k + 1, bound);
    }
  }

  lemma {:induction false} HeadGoesToItsKey<T>(s: seq<T>, key: T -> nat, k: nat, bound: nat)
    requires s != [] && k <= key(s[0]) < bound
    ensures multiset(FromKey(s, key, k, bound)) == multiset{s[0]} + multiset(FromKey(s[1..], key, k, bound))
    decreases bound - k
  {
    if key(s[0]) == k {
      DropSmallHead(s, key, k + 1, bound);
    } else {
      HeadGoesToItsKey(s, key, k + 1, bound);
    }
  }
}
