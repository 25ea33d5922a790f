/** What the models share: optional values and results, sums, concatenations, filters, distinctness and
    the stable sort. */
module Seqs {

  datatype Option<+T> = None | Some(value: T)

  datatype Result<+T> = Ok(value: T) | Err(message: string)

  /** A byte string. Only the framing of messages depends on the range of a byte. */
  type Bytes = seq<int>

  function RemoveAt<T>(s: seq<T>, i: nat): (r: seq<T>)
    requires i < |s|
    ensures |r| == |s| - 1
  {
    s[..i] + s[i + 1..]
  }

  lemma RemoveAtMultiset<T>(s: seq<T>, i: nat)
    requires i < |s|
    ensures multiset(RemoveAt(s, i)) == multiset(s) - multiset{s[i]}
    ensures multiset(s) == multiset(RemoveAt(s, i)) + multiset{s[i]}
  {
    assert s == s[..i] + [s[i]] + s[i + 1..];
  }

  function Sum(s: seq<nat>): nat {
    if |s| == 0 then 0 else s[0] + Sum(s[1..])
  }

  lemma {:induction false} SumConcat(a: seq<nat>, b: seq<nat>)
    ensures Sum(a + b) == Sum(a) + Sum(b)
  {
    if |a| == 0 {
      assert a + b == b;
    } else {
      SumConcat(a[1..], b);
      assert (a + b)[1..] == a[1..] + b;
    }
  }

  function Concat<T>(parts: seq<seq<T>>): seq<T> {
    if |parts| == 0 then [] else parts[0] + Concat(parts[1..])
  }

  lemma {:induction false} ConcatSnoc<T>(parts: seq<seq<T>>, last: seq<T>)
    ensures Concat(parts + [last]) == Concat(parts) + last
  {
    if |parts| == 0 {
      assert parts + [last] == [last];
      assert [last][1..] == [];
    } else {
      ConcatSnoc(parts[1..], last);
      assert (parts + [last])[1..] == parts[1..] + [last];
    }
  }

  lemma Regroup<T>(a: seq<T>, b: seq<T>, c: seq<T>)
    ensures (a + b) + c == a + (b + c)
  {
  }

  predicate Distinct<T(==)>(s: seq<T>) {
    forall i, j :: 0 <= i < j < |s| ==> s[i] != s[j]
  }

  function ToSet<T>(s: seq<T>): set<T> {
    set x | x in s
  }

  lemma SubsetSize<T>(a: set<T>, b: set<T>)
    requires a <= b
    ensures |a| <= |b|
  {
    assert b == a + (b - a);
  }

  lemma {:induction false} DistinctSize<T>(s: seq<T>)
    requires Distinct(s)
    ensures |ToSet(s)| == |s|
  {
    if |s| > 0 {
      DistinctSize(s[1..]);
      assert ToSet(s) == {s[0]} + ToSet(s[1..]);
    }
  }

  lemma DistinctPermutation<T>(a: seq<T>, b: seq<T>)
    requires Distinct(a) && multiset(a) == multiset(b)
    ensures Distinct(b)
  {
    forall i, j | 0 <= i < j < |b| ensures b[i] != b[j] {
      AtMostOne(a, b[j]);
      assert b == b[..j] + [b[j]] + b[j + 1..];
      assert b[..j][i] in multiset(b[..j]);
    }
  }

  lemma {:induction false} AtMostOne<T>(a: seq<T>, x: T)
    requires Distinct(a)
    ensures multiset(a)[x] <= 1
  {
    if |a| > 0 {
      AtMostOne(a[1..], x);
      assert a == [a[0]] + a[1..];
      assert a[0] !in a[1..];
    }
  }

  // ---------------------------------------------------------------- sorting

  /** Python's stable `sorted(xs, key=key)`. */
  function SortBy<T>(xs: seq<T>, key: T -> int): seq<T> {
    if |xs| == 0 then [] else InsertBy(xs[0], SortBy(xs[1..], key), key)
  }

  function InsertBy<T>(x: T, sorted: seq<T>, key: T -> int): seq<T> {
    if |sorted| == 0 || key(x) <= key(sorted[0]) then [x] + sorted
    else [sorted[0]] + InsertBy(x, sorted[1..], key)
  }

  predicate SortedBy<T>(xs: seq<T>, key: T -> int) {
    forall i, j :: 0 <= i <= j < |xs| ==> key(xs[i]) <= key(xs[j])
  }

  lemma {:induction false} InsertBySpec<T>(x: T, sorted: seq<T>, key: T -> int)
    ensures multiset(InsertBy(x, sorted, key)) == multiset(sorted) + multiset{x}
    ensures |InsertBy(x, sorted, key)| == |sorted| + 1
    ensures SortedBy(sorted, key) ==> SortedBy(InsertBy(x, sorted, key), key)
  {
    if |sorted| > 0 && key(x) > key(sorted[0]) {
      InsertBySpec(x, sorted[1..], key);
      assert sorted == [sorted[0]] + sorted[1..];
      var r := InsertBy(x, sorted[1..], key);
      if SortedBy(sorted, key) {
        forall i | 0 <= i < |r| ensures key(sorted[0]) <= key(r[i]) {
          assert r[i] in multiset(r);
          if r[i] != x {
            assert r[i] in sorted[1..];
          }
        }
      }
    }
  }

  lemma {:induction false} SortBySpec<T>(xs: seq<T>, key: T -> int)
    ensures multiset(SortBy(xs, key)) == multiset(xs)
    ensures |SortBy(xs, key)| == |xs|
    ensures SortedBy(SortBy(xs, key), key)
  {
    if |xs| > 0 {
      SortBySpec(xs[1..], key);
      InsertBySpec(xs[0], SortBy(xs[1..], key), key);
      assert xs == [xs[0]] + xs[1..];
    }
  }

  lemma MultisetMembers<T>(a: seq<T>, b: seq<T>)
    requires multiset(a) == multiset(b)
    ensures forall x :: x in a <==> x in b
  {
    forall x ensures x in a <==> x in b {
      assert x in a <==> x in multiset(a);
      assert x in b <==> x in multiset(b);
    }
  }

  predicate DistinctKeys<T>(xs: seq<T>, key: T -> int) {
    forall i, j :: 0 <= i < j < |xs| ==> key(xs[i]) != key(xs[j])
  }

  lemma SameFirst<T>(a: seq<T>, b: seq<T>, key: T -> int)
    requires (forall x :: x in a <==> x in b) && SortedBy(a, key) && SortedBy(b, key)
    requires DistinctKeys(a, key) && |a| > 0 && |b| > 0
    ensures a[0] == b[0]
  {
    assert a[0] in b && b[0] in a;
    var i :| 0 <= i < |b| && b[i] == a[0];
    var j :| 0 <= j < |a| && a[j] == b[0];
    assert key(a[0]) <= key(a[j]) && key(b[0]) <= key(b[i]);
  }

  lemma TailMultiset<T>(a: seq<T>)
    requires |a| > 0
    ensures multiset(a[1..]) == multiset(a) - multiset{a[0]}
  {
    assert a == [a[0]] + a[1..];
    assert multiset(a) == multiset{a[0]} + multiset(a[1..]);
  }

  lemma TailSorted<T>(a: seq<T>, key: T -> int)
    requires |a| > 0
    ensures SortedBy(a, key) ==> SortedBy(a[1..], key)
    ensures DistinctKeys(a, key) ==> DistinctKeys(a[1..], key)
  {
  }

  lemma SameTails<T>(a: seq<T>, b: seq<T>)
    requires |a| > 0 && |b| > 0 && a[0] == b[0] && a[1..] == b[1..]
    ensures a == b
  {
    assert a == [a[0]] + a[1..] && b == [b[0]] + b[1..];
  }

  /** With distinct keys the sorted order is the only sorted arrangement of the elements. */
  lemma {:induction false} SortedUnique<T>(a: seq<T>, b: seq<T>, key: T -> int)
    requires multiset(a) == multiset(b) && SortedBy(a, key) && SortedBy(b, key)
    requires DistinctKeys(a, key)
    ensures a == b
  {
    assert |a| == |multiset(a)| == |multiset(b)| == |b|;
    if |a| > 0 {
      MultisetMembers(a, b);
      SameFirst(a, b, key);
      TailMultiset(a);
      TailMultiset(b);
      TailSorted(a, key);
      TailSorted(b, key);
      SortedUnique(a[1..], b[1..], key);
      SameTails(a, b);
    }
  }
}
