// Sequence helpers: `Array.prototype.filter` and the stable
// `Array.prototype.sort` with a comparator, modelled as insertion sort.
module Seqs {

  /** `s.filter(p)`. */
  function Filter<T>(s: seq<T>, p: T -> bool): (r: seq<T>)
    ensures |r| <= |s|
    ensures forall k :: 0 <= k < |r| ==> p(r[k])
    ensures multiset(r) <= multiset(s)
  {
    if |s| == 0 then []
    else
      assert s == [s[0]] + s[1..];
      (if p(s[0]) then [s[0]] else []) + Filter(s[1..], p)
  }

  lemma {:induction false} FilterAppend<T>(a: seq<T>, b: seq<T>, p: T -> bool)
    ensures Filter(a + b, p) == Filter(a, p) + Filter(b, p)
  {
    if |a| == 0 {
      assert a + b == b;
    } else {
      assert (a + b)[1..] == a[1..] + b;
      FilterAppend(a[1..], b, p);
    }
  }

  lemma {:induction false} FilterMembership<T>(s: seq<T>, p: T -> bool, x: T)
    ensures x in Filter(s, p) <==> x in s && p(x)
  {
    if |s| > 0 {
      FilterMembership(s[1..], p, x);
      assert s == [s[0]] + s[1..];
    }
  }

  lemma {:induction false} FilterKeepsAll<T>(s: seq<T>, p: T -> bool)
    requires forall k :: 0 <= k < |s| ==> p(s[k])
    ensures Filter(s, p) == s
  {
    if |s| > 0 {
      FilterKeepsAll(s[1..], p);
    }
  }

  /** When no item passes the test, nothing is kept. */
  lemma {:induction false} FilterNone<T>(s: seq<T>, p: T -> bool)
    requires forall k :: 0 <= k < |s| ==> !p(s[k])
    ensures Filter(s, p) == []
  {
    if |s| > 0 {
      FilterNone(s[1..], p);
    }
  }

  /** Keeping some items of a duplicate-free sequence leaves it duplicate-free. */
  lemma {:induction false} FilterDistinct<T>(s: seq<T>, p: T -> bool)
    requires forall i, j :: 0 <= i < j < |s| ==> s[i] != s[j]
    ensures forall i, j :: 0 <= i < j < |Filter(s, p)| ==> Filter(s, p)[i] != Filter(s, p)[j]
  {
    if |s| > 0 {
      var tail := Filter(s[1..], p);
      FilterDistinct(s[1..], p);
      FilterMembership(s[1..], p, s[0]);
      assert s[0] !in s[1..];
      assert Filter(s, p) == (if p(s[0]) then [s[0]] else []) + tail;
    }
  }

  /** A suffix is its first element followed by the rest. */
  lemma SliceCons<T>(s: seq<T>, i: nat)
    requires i < |s|
    ensures s[i..] == [s[i]] + s[i + 1..]
  {
  }

  /** Number of elements satisfying `p`. */
  function Count<T>(s: seq<T>, p: T -> bool): nat
  {
    |Filter(s, p)|
  }

  /** `le` is a total preorder: the "not after" relation a JavaScript comparator must describe. */
  ghost predicate TotalPreorder<T(!new)>(le: (T, T) -> bool)
  {
    (forall x, y :: le(x, y) || le(y, x)) &&
    (forall x, y, z :: le(x, y) && le(y, z) ==> le(x, z))
  }

  ghost predicate SortedBy<T>(s: seq<T>, le: (T, T) -> bool)
  {
    forall i, j :: 0 <= i < j < |s| ==> le(s[i], s[j])
  }

  /** The comparator `(a, b) => key(a) - key(b)` as a "not after" relation. */
  function ByKey<T>(key: T -> int): (T, T) -> bool
  {
    (a: T, b: T) => key(a) <= key(b)
  }

  lemma ByKeyPreorder<T(!new)>(key: T -> int)
    ensures TotalPreorder(ByKey(key))
  {
  }

  /** Insert `x` before the first element it is not after. */
  function Insert<T>(x: T, s: seq<T>, le: (T, T) -> bool): (r: seq<T>)
    ensures multiset(r) == multiset(s) + multiset{x}
  {
    if |s| == 0 then [x]
    else if le(x, s[0]) then [x] + s
    else
      assert s == [s[0]] + s[1..];
      [s[0]] + Insert(x, s[1..], le)
  }

  /** `s.slice().sort(cmp)` where `le(a, b)` means `cmp(a, b) <= 0`; stable, as ECMAScript requires. */
  function Sort<T>(s: seq<T>, le: (T, T) -> bool): (r: seq<T>)
    ensures multiset(r) == multiset(s)
    ensures |r| == |s|
  {
    if |s| == 0 then []
    else
      assert s == [s[0]] + s[1..];
      Insert(s[0], Sort(s[1..], le), le)
  }

  lemma {:induction false} InsertSorted<T(!new)>(x: T, s: seq<T>, le: (T, T) -> bool)
    requires TotalPreorder(le)
    requires SortedBy(s, le)
    ensures SortedBy(Insert(x, s, le), le)
  {
    if |s| > 0 && !le(x, s[0]) {
      InsertSorted(x, s[1..], le);
      var r := Insert(x, s[1..], le);
      assert forall k :: 0 <= k < |r| ==> r[k] in multiset(s[1..]) + multiset{x};
      forall k | 0 <= k < |r| ensures le(s[0], r[k]) {
        assert r[k] in multiset(s[1..]) + multiset{x};
        if r[k] != x {
          assert r[k] in s[1..];
        }
      }
    }
  }

  /** The sort result is ordered by `le`. */
  lemma {:induction false} SortSorted<T(!new)>(s: seq<T>, le: (T, T) -> bool)
    requires TotalPreorder(le)
    ensures SortedBy(Sort(s, le), le)
  {
    if |s| > 0 {
      SortSorted(s[1..], le);
      InsertSorted(s[0], Sort(s[1..], le), le);
    }
  }

  predicate Equivalent<T>(x: T, e: T, le: (T, T) -> bool)
  {
    le(x, e) && le(e, x)
  }

  /** Elements of `s` equivalent to `e` under `le`, in order. */
  function Class<T>(s: seq<T>, e: T, le: (T, T) -> bool): seq<T>
  {
    if |s| == 0 then []
    else (if Equivalent(s[0], e, le) then [s[0]] else []) + Class(s[1..], e, le)
  }

  /** `Class` of a sequence with a known first element. */
  lemma ClassCons<T>(a: T, s: seq<T>, e: T, le: (T, T) -> bool)
    ensures Class([a] + s, e, le) == (if Equivalent(a, e, le) then [a] else []) + Class(s, e, le)
  {
    assert ([a] + s)[1..] == s;
  }

  /** Two elements out of order cannot both be equivalent to the same one. */
  lemma NotBothEquivalent<T(!new)>(x: T, y: T, e: T, le: (T, T) -> bool)
    requires TotalPreorder(le)
    requires !le(x, y)
    ensures !(Equivalent(x, e, le) && Equivalent(y, e, le))
  {
  }

  lemma {:induction false} InsertClass<T(!new)>(x: T, s: seq<T>, e: T, le: (T, T) -> bool)
    requires TotalPreorder(le)
    ensures Class(Insert(x, s, le), e, le)
         == (if Equivalent(x, e, le) then [x] else []) + Class(s, e, le)
  {
    if |s| == 0 {
    } else if le(x, s[0]) {
      assert Insert(x, s, le) == [x] + s;
      ClassCons(x, s, e, le);
    } else {
      var a, rest := s[0], s[1..];
      var r := Insert(x, rest, le);
      assert Insert(x, s, le) == [a] + r;
      ClassCons(a, r, e, le);
      InsertClass(x, rest, e, le);
      assert s == [a] + rest;
      ClassCons(a, rest, e, le);
      NotBothEquivalent(x, a, e, le);
      var cx: seq<T> := if Equivalent(x, e, le) then [x] else [];
      var cs: seq<T> := if Equivalent(a, e, le) then [a] else [];
      var c := Class(rest, e, le);
      assert cs + (cx + c) == cx + (cs + c);
    }
  }

  /** Stability: elements that compare equal keep their input order. */
  lemma {:induction false} SortStable<T(!new)>(s: seq<T>, e: T, le: (T, T) -> bool)
    requires TotalPreorder(le)
    ensures Class(Sort(s, le), e, le) == Class(s, e, le)
  {
    if |s| > 0 {
      SortStable(s[1..], e, le);
      InsertClass(s[0], Sort(s[1..], le), e, le);
    }
  }

  /** No two items of `s` share an id. */
  predicate UniqueIds<T>(s: seq<T>, idOf: T -> string)
  {
    forall i, j :: 0 <= i < |s| && 0 <= j < |s| && i != j ==> idOf(s[i]) != idOf(s[j])
  }

  /** A value found at two positions occurs at least twice. */
  lemma TwoPositions<T>(s: seq<T>, i: nat, j: nat)
    requires i < j < |s| && s[i] == s[j]
    ensures multiset(s)[s[i]] >= 2
  {
    assert s == s[..i] + [s[i]] + s[i + 1..];
    assert s[i + 1..][j - i - 1] == s[j];
    assert s[j] in multiset(s[i + 1..]);
  }

  /** In a collection with unique ids every item occurs once. */
  lemma UniqueOnce<T>(s: seq<T>, idOf: T -> string, p: nat)
    requires UniqueIds(s, idOf) && p < |s|
    ensures multiset(s)[s[p]] == 1
  {
    assert s == s[..p] + [s[p]] + s[p + 1..];
    assert s[p] !in s[..p] && s[p] !in s[p + 1..];
  }

  /** Reordering a collection keeps its ids unique. */
  lemma PermutationKeepsUniqueIds<T>(a: seq<T>, b: seq<T>, idOf: T -> string)
    requires multiset(a) == multiset(b)
    requires UniqueIds(a, idOf)
    ensures UniqueIds(b, idOf)
  {
    forall i, j | 0 <= i < |b| && 0 <= j < |b| && i != j
      ensures idOf(b[i]) != idOf(b[j])
    {
      assert b[i] in multiset(a) && b[j] in multiset(a);
      var p :| 0 <= p < |a| && a[p] == b[i];
      var q :| 0 <= q < |a| && a[q] == b[j];
      UniqueOnce(a, idOf, p);
      if i < j {
        if b[i] == b[j] {
          TwoPositions(b, i, j);
        }
      } else {
        if b[i] == b[j] {
          TwoPositions(b, j, i);
        }
      }
    }
  }
}

// Grouping into an insertion-ordered `Map` of arrays (`map.get(key).push(item)`).
module Groups {

  /** The items of `s` whose key is `k`, in input order. */
  function KeyFilter<T, K(==)>(s: seq<T>, keyOf: T -> K, k: K): (r: seq<T>)
    ensures |r| <= |s|
  {
    if |s| == 0 then []
    else (if keyOf(s[0]) == k then [s[0]] else []) + KeyFilter(s[1..], keyOf, k)
  }

  lemma {:induction false} KeyFilterAppend<T, K>(a: seq<T>, b: seq<T>, keyOf: T -> K, k: K)
    ensures KeyFilter(a + b, keyOf, k) == KeyFilter(a, keyOf, k) + KeyFilter(b, keyOf, k)
  {
    if |a| == 0 {
      assert a + b == b;
    } else {
      var head := if keyOf(a[0]) == k then [a[0]] else [];
      assert (a + b)[0] == a[0];
      assert (a + b)[1..] == a[1..] + b;
      KeyFilterAppend(a[1..], b, keyOf, k);
      calc {
        KeyFilter(a + b, keyOf, k);
        head + KeyFilter(a[1..] + b, keyOf, k);
        head + (KeyFilter(a[1..], keyOf, k) + KeyFilter(b, keyOf, k));
        (head + KeyFilter(a[1..], keyOf, k)) + KeyFilter(b, keyOf, k);
      }
    }
  }

  lemma {:induction false} KeyFilterEmptyIff<T, K>(s: seq<T>, keyOf: T -> K, k: K)
    ensures KeyFilter(s, keyOf, k) == [] <==> forall i :: 0 <= i < |s| ==> keyOf(s[i]) != k
  {
    if |s| > 0 {
      KeyFilterEmptyIff(s[1..], keyOf, k);
      assert forall i :: 1 <= i < |s| ==> s[i] == s[1..][i - 1];
    }
  }

  /** What a key group holds comes from the input and carries the key. */
  lemma {:induction false} KeyFilterMembers<T, K>(s: seq<T>, keyOf: T -> K, k: K, x: T)
    ensures x in KeyFilter(s, keyOf, k) <==> x in s && keyOf(x) == k
  {
    if |s| > 0 {
      KeyFilterMembers(s[1..], keyOf, k, x);
      assert s == [s[0]] + s[1..];
    }
  }

  /** Index of the first item of `s` whose key is `k`, or `|s|` when there is none. */
  function FirstIndex<T, K(==)>(s: seq<T>, keyOf: T -> K, k: K): (r: nat)
    ensures r <= |s|
    ensures forall j :: 0 <= j < r ==> keyOf(s[j]) != k
    ensures r < |s| ==> keyOf(s[r]) == k
  {
    if |s| == 0 || keyOf(s[0]) == k then 0
    else
      var r := 1 + FirstIndex(s[1..], keyOf, k);
      assert forall j :: 1 <= j < r ==> s[j] == s[1..][j - 1];
      r
  }

  /** A key first met at index `i` comes after every key met before `i`. */
  lemma NewKeyLast<T, K>(items: seq<T>, keyOf: T -> K, keys: seq<K>, i: nat)
    requires i < |items|
    requires forall j :: 0 <= j < |items[..i]| ==> keyOf(items[..i][j]) != keyOf(items[i])
    requires forall a :: 0 <= a < |keys| ==> FirstIndex(items, keyOf, keys[a]) < i
    requires forall a, b :: 0 <= a < b < |keys| ==>
               FirstIndex(items, keyOf, keys[a]) < FirstIndex(items, keyOf, keys[b])
    ensures forall a :: 0 <= a < |keys + [keyOf(items[i])]| ==>
              FirstIndex(items, keyOf, (keys + [keyOf(items[i])])[a]) < i + 1
    ensures forall a, b :: 0 <= a < b < |keys + [keyOf(items[i])]| ==>
              FirstIndex(items, keyOf, (keys + [keyOf(items[i])])[a])
              < FirstIndex(items, keyOf, (keys + [keyOf(items[i])])[b])
  {
    var key := keyOf(items[i]);
    assert forall j :: 0 <= j < i ==> keyOf(items[j]) != key by {
      forall j | 0 <= j < i ensures keyOf(items[j]) != key {
        assert items[..i][j] == items[j];
      }
    }
    assert FirstIndex(items, keyOf, key) == i;
  }

  lemma KeyFilterSnoc<T, K>(s: seq<T>, x: T, keyOf: T -> K, k: K)
    ensures KeyFilter(s + [x], keyOf, k) == KeyFilter(s, keyOf, k) + (if keyOf(x) == k then [x] else [])
  {
    KeyFilterAppend(s, [x], keyOf, k);
  }

  /**
   * Fill a `Map` from key to array in one pass: keys in order of first
   * appearance, each array holding exactly the items with that key, in order.
   */
  method GroupBy<T, K(==)>(items: seq<T>, keyOf: T -> K) returns (keys: seq<K>, groups: map<K, seq<T>>)
    ensures forall k :: k in groups <==> k in keys
    ensures forall i, j :: 0 <= i < j < |keys| ==> keys[i] != keys[j]
    ensures forall k :: k in groups ==> groups[k] == KeyFilter(items, keyOf, k) && groups[k] != []
    ensures forall k :: k !in groups ==> KeyFilter(items, keyOf, k) == []
    ensures forall a, b :: 0 <= a < b < |keys| ==>
              FirstIndex(items, keyOf, keys[a]) < FirstIndex(items, keyOf, keys[b])
  {
    keys := [];
    groups := map[];
    var i := 0;
    while i < |items|
      invariant 0 <= i <= |items|
      invariant forall k :: k in groups <==> k in keys
      invariant forall a, b :: 0 <= a < b < |keys| ==> keys[a] != keys[b]
      invariant forall k :: k in groups ==> groups[k] == KeyFilter(items[..i], keyOf, k) && groups[k] != []
      invariant forall k :: k !in groups ==> KeyFilter(items[..i], keyOf, k) == []
      invariant forall a :: 0 <= a < |keys| ==> FirstIndex(items, keyOf, keys[a]) < i
      invariant forall a, b :: 0 <= a < b < |keys| ==>
                  FirstIndex(items, keyOf, keys[a]) < FirstIndex(items, keyOf, keys[b])
    {
      var x := items[i];
      var key := keyOf(x);
      ghost var prefix := items[..i];
      assert items[..i + 1] == prefix + [x];
      ghost var old_groups := groups;
      if key in groups {
        groups := groups[key := groups[key] + [x]];
      } else {
        assert KeyFilter(prefix, keyOf, key) == [];
        KeyFilterEmptyIff(prefix, keyOf, key);
        NewKeyLast(items, keyOf, keys, i);
        keys := keys + [key];
        groups := groups[key := [x]];
      }
      forall k | k in groups
        ensures groups[k] == KeyFilter(prefix + [x], keyOf, k) && groups[k] != []
      {
        KeyFilterSnoc(prefix, x, keyOf, k);
        if k == key {
          if key in old_groups {
            assert old_groups[key] == KeyFilter(prefix, keyOf, key);
          } else {
            assert KeyFilter(prefix, keyOf, key) == [];
          }
        } else {
          assert k in old_groups && groups[k] == old_groups[k];
        }
      }
      forall k | k !in groups
        ensures KeyFilter(prefix + [x], keyOf, k) == []
      {
        KeyFilterSnoc(prefix, x, keyOf, k);
      }
      i := i + 1;
    }
    assert items[..i] == items;
  }
}
