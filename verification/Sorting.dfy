/** Facts about sorting by a key that hold of every sorted permutation, stable or not. */
module Sorting {
  import opened Prelude

  ghost predicate SortedBy<T(!new)>(s: seq<T>, key: T -> real) {
    forall i, j :: 0 <= i < j < |s| ==> key(s[i]) <= key(s[j])
  }

  ghost predicate SortOf<T(!new)>(s: seq<T>, t: seq<T>, key: T -> real) {
    multiset(s) == multiset(t) && SortedBy(t, key)
  }

  function Insert<T(!new)>(s: seq<T>, x: T, key: T -> real): (r: seq<T>)
    ensures multiset(r) == multiset(s) + multiset{x}
  {
    if s == [] || key(s[|s| - 1]) <= key(x) then s + [x]
    else
      assert s == s[..|s| - 1] + [s[|s| - 1]];
      Insert(s[..|s| - 1], x, key) + [s[|s| - 1]]
  }

  lemma SortedSnoc<T(!new)>(s: seq<T>, x: T, key: T -> real)
    requires SortedBy(s, key) && forall y :: y in s ==> key(y) <= key(x)
    ensures SortedBy(s + [x], key)
  {
    forall i | 0 <= i < |s|
      ensures key(s[i]) <= key(x)
    {
      assert s[i] in s;
    }
  }

  lemma {:induction false} InsertSorted<T(!new)>(s: seq<T>, x: T, key: T -> real)
    requires SortedBy(s, key)
    ensures SortedBy(Insert(s, x, key), key)
    decreases |s|
  {
    var n := |s| - 1;
    if s == [] || key(s[n]) <= key(x) {
      SortedSnoc(s, x, key);
    } else {
      InsertSorted(s[..n], x, key);
      var rest := Insert(s[..n], x, key);
      forall y | y in rest
        ensures key(y) <= key(s[n])
      {
        assert y in multiset(rest);
        assert y in s[..n] || y == x;
      }
      SortedSnoc(rest, s[n], key);
    }
  }

  /** An executable sort; the results below are about every sort, not this one. */
  function Sort<T(!new)>(s: seq<T>, key: T -> real): (r: seq<T>)
    ensures SortOf(s, r, key)
  {
    if s == [] then []
    else
      var n := |s| - 1;
      assert s == s[..n] + [s[n]];
      InsertSorted(Sort(s[..n], key), s[n], key);
      Insert(Sort(s[..n], key), s[n], key)
  }

  // ---- Comparisons that can fail -----------------------------------------------------------

  /** Inserts by a comparison that can fail, which ends the insertion. */
  function TryInsert<T>(s: seq<T>, x: T, atMost: (T, T) -> Option<bool>): Option<seq<T>> {
    if s == [] then Some([x])
    else
      var n := |s| - 1;
      var below :- atMost(s[n], x);
      if below then Some(s + [x])
      else
        var r :- TryInsert(s[..n], x, atMost);
        Some(r + [s[n]])
  }

  function TrySort<T>(s: seq<T>, atMost: (T, T) -> Option<bool>): Option<seq<T>> {
    if s == [] then Some([])
    else
      var r :- TrySort(s[..|s| - 1], atMost);
      TryInsert(r, s[|s| - 1], atMost)
  }

  /** The comparison compares keys, and fails when one of them is missing. */
  ghost predicate Compares<T(!new)>(atMost: (T, T) -> Option<bool>, has: T -> bool, key: T -> real) {
    forall a, b :: atMost(a, b) == if has(a) && has(b) then Some(key(a) <= key(b)) else None
  }

  lemma {:induction false} TryInsertExact<T(!new)>(s: seq<T>, x: T, atMost: (T, T) -> Option<bool>,
                                                   has: T -> bool, key: T -> real)
    requires Compares(atMost, has, key) && forall y :: y in s ==> has(y)
    ensures TryInsert(s, x, atMost) == if has(x) || s == [] then Some(Insert(s, x, key)) else None
    decreases |s|
  {
    if s == [] {
      assert s + [x] == [x];
    } else {
      var n := |s| - 1;
      assert s[n] in s;
      if has(x) && key(s[n]) > key(x) {
        TryInsertExact(s[..n], x, atMost, has, key);
      }
    }
  }

  lemma {:induction false} TrySortWorks<T(!new)>(s: seq<T>, atMost: (T, T) -> Option<bool>,
                                                 has: T -> bool, key: T -> real)
    requires Compares(atMost, has, key) && forall y :: y in s ==> has(y)
    ensures TrySort(s, atMost) == Some(Sort(s, key))
    decreases |s|
  {
    hide Compares;
    if s != [] {
      var n := |s| - 1;
      TrySortWorks(s[..n], atMost, has, key);
      forall y | y in Sort(s[..n], key)
        ensures has(y)
      {
        assert y in multiset(Sort(s[..n], key));
        assert y in s[..n];
      }
      assert s[n] in s;
      TryInsertExact(Sort(s[..n], key), s[n], atMost, has, key);
    }
  }

  lemma TrySortNext<T>(s: seq<T>, x: T, atMost: (T, T) -> Option<bool>)
    ensures TrySort(s + [x], atMost) ==
            match TrySort(s, atMost) case None => None case Some(r) => TryInsert(r, x, atMost)
  {
    hide TryInsert;
    assert (s + [x])[..|s|] == s;
  }

  lemma TrySortOne<T>(x: T, atMost: (T, T) -> Option<bool>)
    ensures TrySort([x], atMost) == Some([x])
  {
    assert [x][..0] == [];
  }

  lemma TryInsertOne<T>(x: T, y: T, atMost: (T, T) -> Option<bool>)
    ensures TryInsert([x], y, atMost).None? <==> atMost(x, y).None?
  {
    assert [x][..0] == [];
  }

  /** Sorting fails exactly when there is something to compare and a key is missing. */
  lemma {:induction false} TrySortFails<T(!new)>(s: seq<T>, atMost: (T, T) -> Option<bool>,
                                                 has: T -> bool, key: T -> real)
    requires Compares(atMost, has, key)
    ensures TrySort(s, atMost).None? <==> |s| >= 2 && exists y :: y in s && !has(y)
    decreases |s|
  {
    hide TrySort, TryInsert, Sort, Insert;
    if |s| == 0 {
      TrySortNothing(atMost);
      assert s == [];
    } else if |s| == 1 {
      TrySortOne(s[0], atMost);
      assert s == [s[0]];
    } else {
      var n := |s| - 1;
      var rest := s[..n];
      assert s == rest + [s[n]];
      TrySortNext(rest, s[n], atMost);
      if n == 1 {
        assert rest == [s[0]];
        TrySortOne(s[0], atMost);
        TryInsertOne(s[0], s[1], atMost);
      } else {
        TrySortFails(rest, atMost, has, key);
        if forall y :: y in rest ==> has(y) {
          TrySortWorks(rest, atMost, has, key);
          SortMembers(rest, key);
          SortLength(rest, Sort(rest, key), key);
          TryInsertExact(Sort(rest, key), s[n], atMost, has, key);
        }
      }
    }
  }

  lemma TrySortNothing<T>(atMost: (T, T) -> Option<bool>)
    ensures TrySort<T>([], atMost) == Some([])
  {
  }

  lemma SortMembers<T(!new)>(s: seq<T>, key: T -> real)
    ensures forall y :: y in Sort(s, key) <==> y in s
  {
    assert forall y :: y in Sort(s, key) <==> y in multiset(Sort(s, key));
    assert forall y :: y in s <==> y in multiset(s);
  }

  // ---- Sorted permutations -----------------------------------------------------------------

  /** Elements that share a key are the same element. */
  ghost predicate Keyed<T(!new)>(s: seq<T>, key: T -> real) {
    forall i, j :: 0 <= i < |s| && 0 <= j < |s| && key(s[i]) == key(s[j]) ==> s[i] == s[j]
  }

  /** Taking out one element takes out one occurrence. */
  lemma RemoveAt<T>(s: seq<T>, j: nat)
    requires j < |s|
    ensures multiset(s) == multiset(s[..j] + s[j + 1..]) + multiset{s[j]}
  {
    assert s == s[..j] + ([s[j]] + s[j + 1..]);
  }

  lemma Cancel<T>(a: multiset<T>, b: multiset<T>, x: T)
    requires a + multiset{x} == b + multiset{x}
    ensures a == b
  {
    assert a == (a + multiset{x}) - multiset{x};
  }

  /** Removing an equal element from two permutations leaves permutations. */
  lemma RemoveBoth<T>(s: seq<T>, i: nat, t: seq<T>, j: nat)
    requires multiset(s) == multiset(t) && i < |s| && j < |t| && s[i] == t[j]
    ensures multiset(s[..i] + s[i + 1..]) == multiset(t[..j] + t[j + 1..])
  {
    RemoveAt(s, i);
    RemoveAt(t, j);
    Cancel(multiset(s[..i] + s[i + 1..]), multiset(t[..j] + t[j + 1..]), s[i]);
  }

  /** Different places in one permutation are different places in the other. */
  lemma OtherPlaces<T>(s: seq<T>, t: seq<T>, i: nat, j: nat) returns (p: nat, q: nat)
    requires multiset(s) == multiset(t) && i < |s| && j < |s| && i != j
    ensures p < |t| && q < |t| && p != q && t[p] == s[i] && t[q] == s[j]
  {
    assert s[i] in multiset(t);
    p :| 0 <= p < |t| && t[p] == s[i];
    RemoveBoth(s, i, t, p);
    var rest, left := s[..i] + s[i + 1..], t[..p] + t[p + 1..];
    assert rest[if j < i then j else j - 1] == s[j];
    assert s[j] in multiset(left);
    var m :| 0 <= m < |left| && left[m] == s[j];
    q := if m < p then m else m + 1;
  }

  lemma SameLength<T>(s: seq<T>, t: seq<T>)
    requires multiset(s) == multiset(t)
    ensures |s| == |t|
  {
    assert |multiset(s)| == |s| && |multiset(t)| == |t|;
  }

  lemma SortLength<T(!new)>(s: seq<T>, t: seq<T>, key: T -> real)
    requires SortOf(s, t, key)
    ensures |s| == |t|
  {
    SameLength(s, t);
  }

  lemma LastAgrees<T(!new)>(s: seq<T>, t: seq<T>, key: T -> real)
    requires multiset(s) == multiset(t) && SortedBy(s, key) && SortedBy(t, key) && Keyed(s, key)
    requires s != [] && t != []
    ensures s[|s| - 1] == t[|t| - 1]
  {
    var x, y := s[|s| - 1], t[|t| - 1];
    assert x in multiset(t) && y in multiset(s);
    var i :| 0 <= i < |t| && t[i] == x;
    var j :| 0 <= j < |s| && s[j] == y;
    assert key(x) <= key(y) && key(y) <= key(x);
    assert s[j] == s[|s| - 1];
  }

  lemma PrefixSorted<T(!new)>(s: seq<T>, n: nat, key: T -> real)
    requires n <= |s| && SortedBy(s, key)
    ensures SortedBy(s[..n], key)
    ensures Keyed(s, key) ==> Keyed(s[..n], key)
  {
  }

  lemma PrefixesPermute<T>(s: seq<T>, t: seq<T>)
    requires multiset(s) == multiset(t) && |s| == |t| > 0 && s[|s| - 1] == t[|s| - 1]
    ensures multiset(s[..|s| - 1]) == multiset(t[..|s| - 1])
  {
    var n := |s| - 1;
    RemoveBoth(s, n, t, n);
    assert s[..n] + s[n + 1..] == s[..n] && t[..n] + t[n + 1..] == t[..n];
  }

  /** When keys identify elements there is only one sorted permutation. */
  lemma {:induction false} SortedUnique<T(!new)>(s: seq<T>, t: seq<T>, key: T -> real)
    requires multiset(s) == multiset(t) && SortedBy(s, key) && SortedBy(t, key) && Keyed(s, key)
    ensures s == t
    decreases |s|
  {
    hide SortedBy, Keyed;
    SameLength(s, t);
    if s != [] {
      var n := |s| - 1;
      LastAgrees(s, t, key);
      PrefixesPermute(s, t);
      PrefixSorted(s, n, key);
      PrefixSorted(t, n, key);
      SortedUnique(s[..n], t[..n], key);
      assert s == s[..n] + [s[n]] && t == t[..n] + [t[n]];
    }
  }

  /** Keys that identify the elements of one permutation identify those of another. */
  lemma KeyedPermutation<T(!new)>(s: seq<T>, t: seq<T>, key: T -> real)
    requires multiset(s) == multiset(t) && Keyed(s, key)
    ensures Keyed(t, key)
  {
    forall i, j | 0 <= i < |t| && 0 <= j < |t| && key(t[i]) == key(t[j])
      ensures t[i] == t[j]
    {
      assert t[i] in multiset(s) && t[j] in multiset(s);
    }
  }

  function Swap<T>(s: seq<T>, p: nat, q: nat): (r: seq<T>)
    requires p < q < |s|
    ensures |r| == |s|
  {
    s[p := s[q]][q := s[p]]
  }

  /** Two elements with one key can change places in a sorted sequence. */
  lemma SwapSorted<T(!new)>(s: seq<T>, p: nat, q: nat, key: T -> real)
    requires p < q < |s| && SortedBy(s, key) && key(s[p]) == key(s[q])
    ensures SortOf(s, Swap(s, p, q), key)
  {
    var r := Swap(s, p, q);
    assert multiset(r) == multiset(s);
    forall i | 0 <= i < |s|
      ensures key(r[i]) == key(s[i])
    {
    }
  }
}
