/** XOR distances, the nearest peers, the routing table and the choice of replication targets
    (backend/dht/routing.py:13-101, backend/strategies/replication.py:161-184). */
module Routing {
  import opened Seqs

  // ---------------------------------------------------------------- the XOR metric

  /** Bitwise exclusive or of natural numbers. */
  function Xor(a: nat, b: nat): nat {
    if a == 0 && b == 0 then 0 else (a % 2 + b % 2) % 2 + 2 * Xor(a / 2, b / 2)
  }

  lemma {:induction false} XorIdentity(a: nat, b: nat)
    ensures Xor(a, b) == 0 <==> a == b
    decreases a + b
  {
    if a != 0 || b != 0 {
      XorIdentity(a / 2, b / 2);
    }
  }

  lemma {:induction false} XorSymmetric(a: nat, b: nat)
    ensures Xor(a, b) == Xor(b, a)
    decreases a + b
  {
    if a != 0 || b != 0 {
      XorSymmetric(a / 2, b / 2);
    }
  }

  lemma {:induction false} XorAtMostSum(a: nat, b: nat)
    ensures Xor(a, b) <= a + b
    decreases a + b
  {
    if a != 0 || b != 0 {
      XorAtMostSum(a / 2, b / 2);
    }
  }

  lemma XorHalves(a: nat, b: nat)
    ensures Xor(a, b) % 2 == (a % 2 + b % 2) % 2 && Xor(a, b) / 2 == Xor(a / 2, b / 2)
  {
  }

  /** Bit by bit, the middle operand cancels. */
  lemma BitCancels(a: nat, b: nat, c: nat, x: nat, y: nat, xy: nat, ac: nat)
    requires x % 2 == (a % 2 + b % 2) % 2 && y % 2 == (b % 2 + c % 2) % 2
    requires xy % 2 == (x % 2 + y % 2) % 2 && ac % 2 == (a % 2 + c % 2) % 2
    requires xy / 2 == ac / 2
    ensures xy == ac
  {
  }

  lemma {:induction false} XorCancels(a: nat, b: nat, c: nat)
    ensures Xor(Xor(a, b), Xor(b, c)) == Xor(a, c)
    decreases a + b + c
  {
    if a != 0 || b != 0 || c != 0 {
      var x, y := Xor(a, b), Xor(b, c);
      XorCancels(a / 2, b / 2, c / 2);
      XorHalves(a, b);
      XorHalves(b, c);
      XorHalves(x, y);
      XorHalves(a, c);
      BitCancels(a, b, c, x, y, Xor(x, y), Xor(a, c));
    }
  }

  lemma {:induction false} XorTriangle(a: nat, b: nat, c: nat)
    ensures Xor(a, c) <= Xor(a, b) + Xor(b, c)
  {
    XorCancels(a, b, c);
    XorAtMostSum(Xor(a, b), Xor(b, c));
  }

  /** For any point and distance there is exactly one point at that distance. */
  lemma XorUnique(a: nat, d: nat)
    ensures Xor(a, Xor(a, d)) == d
    ensures forall b: nat :: Xor(a, b) == d ==> b == Xor(a, d)
  {
    UniquePoint(a, Xor(a, d));
    XorSymmetric(a, Xor(a, d));
    XorCancels(d, a, 0);
    XorSymmetric(a, d);
    XorZero(a);
    XorZero(d);
    XorSymmetric(Xor(a, d), a);
    forall b: nat | Xor(a, b) == d ensures b == Xor(a, d) {
      UniquePoint(a, b);
    }
  }

  lemma {:induction false} XorZero(a: nat)
    ensures Xor(a, 0) == a
    decreases a
  {
    if a != 0 {
      XorZero(a / 2);
    }
  }

  lemma UniquePoint(a: nat, b: nat)
    ensures Xor(a, Xor(a, b)) == b
  {
    XorCancels(b, a, 0);
    XorZero(a);
    XorZero(b);
    XorSymmetric(a, b);
    XorSymmetric(Xor(a, b), a);
  }

  // ---------------------------------------------------------------- find_closest_peers

  function HexDigit(c: char): Option<nat> {
    if '0' <= c <= '9' then Some(c as nat - '0' as nat)
    else if 'a' <= c <= 'f' then Some(c as nat - 'a' as nat + 10)
    else if 'A' <= c <= 'F' then Some(c as nat - 'A' as nat + 10)
    else None
  }

  function Digits(s: string): Option<nat> {
    if |s| == 0 then Some(0)
    else
      var front, last := Digits(s[..|s| - 1]), HexDigit(s[|s| - 1]);
      if front.None? || last.None? then None else Some(16 * front.value + last.value)
  }

  /** `int(s, 16)` of a string of hex digits; None is its ValueError. */
  function ParseHex(s: string): Option<nat> {
    if |s| == 0 then None else Digits(s)
  }

  function Distance(a: string, b: string): Option<nat> {
    var x, y := ParseHex(a), ParseHex(b);
    if x.None? || y.None? then None else Some(Xor(x.value, y.value))
  }

  /** A peer id with its distance. */
  type Ranked = (string, nat)

  function ByDistance(): Ranked -> int {
    (r: Ranked) => r.1
  }

  /** The peers whose distance can be computed, in the given order. */
  function Measured(target: string, ids: seq<string>): seq<Ranked> {
    if |ids| == 0 then []
    else (if Distance(target, ids[0]).Some? then [(ids[0], Distance(target, ids[0]).value)] else []) + Measured(target, ids[1..])
  }

  function Take<T>(xs: seq<T>, k: nat): (r: seq<T>)
    ensures |r| == if k <= |xs| then k else |xs|
  {
    if k <= |xs| then xs[..k] else xs
  }

  function Nearest(target: string, ids: seq<string>, k: nat): (r: seq<Ranked>)
    ensures |r| <= k
  {
    Take(SortBy(Measured(target, ids), ByDistance()), k)
  }

  method FindClosestPeers(target: string, ids: seq<string>, k: nat) returns (r: seq<Ranked>)
    ensures r == Nearest(target, ids, k)
  {
    if |ids| == 0 {
      return [];
    }
    var distances: seq<Ranked> := [];
    assert ids[0..] == ids;
    for i := 0 to |ids|
      invariant Measured(target, ids) == distances + Measured(target, ids[i..])
    {
      assert ids[i..][1..] == ids[i + 1..];
      var d := Distance(target, ids[i]);
      if d.Some? {
        distances := distances + [(ids[i], d.value)];
      }
    }
    assert distances == Measured(target, ids);
    return Take(SortBy(distances, ByDistance()), k);
  }

  function Names(ranked: seq<Ranked>): (names: seq<string>)
    ensures |names| == |ranked|
  {
    seq(|ranked|, i requires 0 <= i < |ranked| => ranked[i].0)
  }

  /** The target and every id parse as hex. */
  predicate AllMeasurable(target: string, ids: seq<string>) {
    forall p :: p in ids ==> Distance(target, p).Some?
  }

  lemma MeasuredCons(target: string, id: string, ids: seq<string>)
    ensures Measured(target, [id] + ids) ==
            if Distance(target, id).Some? then [(id, Distance(target, id).value)] + Measured(target, ids) else Measured(target, ids)
  {
    assert ([id] + ids)[1..] == ids;
  }

  lemma {:induction false} MeasuredSpec(target: string, ids: seq<string>)
    ensures forall r :: r in Measured(target, ids) <==> r.0 in ids && Distance(target, r.0) == Some(r.1)
    ensures |Measured(target, ids)| <= |ids|
    ensures AllMeasurable(target, ids) ==> |Measured(target, ids)| == |ids|
  {
    if |ids| > 0 {
      var id, rest := ids[0], ids[1..];
      MeasuredSpec(target, rest);
      assert ids == [id] + rest && id in ids;
      MeasuredCons(target, id, rest);
    }
  }

  lemma NotMeasured(target: string, id: string, ids: seq<string>)
    requires id !in ids
    ensures id !in Names(Measured(target, ids))
  {
    MeasuredSpec(target, ids);
    var measured := Measured(target, ids);
    forall i | 0 <= i < |measured| ensures Names(measured)[i] != id {
      assert measured[i] in measured;
    }
  }

  lemma DistinctCons(x: string, xs: seq<string>)
    requires Distinct(xs) && x !in xs
    ensures Distinct([x] + xs)
  {
  }

  lemma {:induction false} MeasuredDistinct(target: string, ids: seq<string>)
    requires Distinct(ids)
    ensures Distinct(Names(Measured(target, ids)))
  {
    if |ids| > 0 {
      var id, rest := ids[0], ids[1..];
      assert id !in rest;
      MeasuredDistinct(target, rest);
      NotMeasured(target, id, rest);
      DistinctCons(id, Names(Measured(target, rest)));
      FirstMeasured(target, ids);
    }
  }

  lemma NamesCons(r: Ranked, rs: seq<Ranked>)
    ensures Names([r] + rs) == [r.0] + Names(rs)
  {
  }

  lemma FirstMeasured(target: string, ids: seq<string>)
    requires |ids| > 0
    ensures Names(Measured(target, ids)) ==
            if Distance(target, ids[0]).Some? then [ids[0]] + Names(Measured(target, ids[1..])) else Names(Measured(target, ids[1..]))
  {
    assert ids == [ids[0]] + ids[1..];
    MeasuredCons(target, ids[0], ids[1..]);
    if Distance(target, ids[0]).Some? {
      NamesCons((ids[0], Distance(target, ids[0]).value), Measured(target, ids[1..]));
    }
  }

  lemma DistinctNames(a: seq<Ranked>, b: seq<Ranked>)
    requires multiset(a) == multiset(b) && Distinct(Names(a))
    requires forall r, q :: r in a && q in a && r.0 == q.0 ==> r == q
    ensures Distinct(Names(b))
  {
    MultisetMembers(a, b);
    assert Distinct(a) by {
      forall i, j | 0 <= i < j < |a| ensures a[i] != a[j] {
        assert Names(a)[i] != Names(a)[j];
      }
    }
    DistinctPermutation(a, b);
    forall i, j | 0 <= i < j < |b| ensures Names(b)[i] != Names(b)[j] {
      assert b[i] in a && b[j] in a;
    }
  }

  lemma SortedMeasured(target: string, ids: seq<string>)
    requires Distinct(ids)
    ensures var all, sorted := Measured(target, ids), SortBy(Measured(target, ids), ByDistance());
            && |sorted| == |all| && SortedBy(sorted, ByDistance()) && Distinct(Names(sorted))
            && forall x :: x in sorted <==> x in all
  {
    var all := Measured(target, ids);
    MeasuredSpec(target, ids);
    MeasuredDistinct(target, ids);
    SortBySpec(all, ByDistance());
    MultisetMembers(all, SortBy(all, ByDistance()));
    DistinctNames(all, SortBy(all, ByDistance()));
  }

  lemma TakenNames(sorted: seq<Ranked>, k: nat)
    requires Distinct(Names(sorted))
    ensures Names(Take(sorted, k)) == Take(Names(sorted), k) && Distinct(Names(Take(sorted, k)))
  {
    assert Names(Take(sorted, k)) == Take(Names(sorted), k);
  }

  /** The result is sorted, holds distinct measurable peers, as many as there are up to k, and no peer left
      out is nearer than one in it. */
  lemma NearestSpec(target: string, ids: seq<string>, k: nat)
    requires Distinct(ids)
    ensures var r, all := Nearest(target, ids, k), Measured(target, ids);
            && |r| == (if k <= |all| then k else |all|)
            && SortedBy(r, ByDistance()) && Distinct(Names(r))
            && (forall x :: x in r ==> x in all)
            && (forall x, y :: x in all && x !in r && y in r ==> y.1 <= x.1)
  {
    SortedMeasured(target, ids);
    var sorted, r := SortBy(Measured(target, ids), ByDistance()), Nearest(target, ids, k);
    TakenNames(sorted, k);
    forall x, y | x in sorted && x !in r && y in r ensures y.1 <= x.1 {
      NearerFirst(sorted, r, x, y);
    }
  }

  lemma NearestNames(chunkHash: string, ids: seq<string>, k: nat)
    requires Distinct(ids)
    ensures var names := Names(Nearest(chunkHash, ids, k));
            |names| <= k && Distinct(names) && forall p :: p in names ==> p in ids
  {
    NearestSpec(chunkHash, ids, k);
    MeasuredSpec(chunkHash, ids);
    var r := Nearest(chunkHash, ids, k);
    forall i | 0 <= i < |r| ensures Names(r)[i] in ids {
      assert r[i] in r;
    }
  }

  lemma NearerFirst(sorted: seq<Ranked>, r: seq<Ranked>, x: Ranked, y: Ranked)
    requires SortedBy(sorted, ByDistance()) && |r| <= |sorted| && r == sorted[..|r|]
    requires x in sorted && x !in r && y in r
    ensures y.1 <= x.1
  {
    assert sorted == r + sorted[|r|..];
    var i :| 0 <= i < |sorted[|r|..]| && sorted[|r|..][i] == x;
    var j :| 0 <= j < |r| && r[j] == y;
    assert ByDistance()(sorted[j]) <= ByDistance()(sorted[|r| + i]);
  }

  // ---------------------------------------------------------------- _select_targets

  /** `for pid in more: if pid not in combined: combined.append(pid)` */
  function Merged(combined: seq<string>, more: seq<string>): (r: seq<string>)
    ensures combined <= r
    decreases |more|
  {
    if |more| == 0 then combined
    else Merged(if more[0] in combined then combined else combined + [more[0]], more[1..])
  }

  method MergeInto(combined: seq<string>, more: seq<string>) returns (r: seq<string>)
    ensures r == Merged(combined, more)
  {
    r := combined;
    assert more[0..] == more;
    for i := 0 to |more|
      invariant Merged(combined, more) == Merged(r, more[i..])
    {
      assert more[i..][1..] == more[i + 1..];
      if more[i] !in r {
        r := r + [more[i]];
      }
    }
  }

  /** `ranking` is the order of the heuristic scores, best first. */
  method SelectTargets(chunkHash: string, alive: seq<string>, ranking: seq<string>, k: nat) returns (r: seq<string>)
    requires Distinct(alive) && Distinct(ranking) && ToSet(ranking) == ToSet(alive)
    ensures |r| == if k <= |alive| then k else |alive|
    ensures Distinct(r) && forall p :: p in r ==> p in alive
    ensures AllMeasurable(chunkHash, alive) ==> r == Names(Nearest(chunkHash, alive, k))
    ensures r == Take(Merged(Names(Nearest(chunkHash, alive, k)), Take(ranking, 2 * k)), k)
  {
    DistinctSize(alive);
    DistinctSize(ranking);
    if |alive| == 0 {
      MeasuredSpec(chunkHash, alive);
      return [];
    }
    var heuristicTop := Take(ranking, 2 * k);
    var closest := FindClosestPeers(chunkHash, alive, k);
    var xorTop := Names(closest);
    var combined := MergeInto([], xorTop);
    ghost var xorPart := combined;
    combined := MergeInto(combined, heuristicTop);
    r := Take(combined, k);
    XorTopFirst(chunkHash, alive, k);
    TargetsSpec(chunkHash, alive, ranking, k, xorPart, combined);
  }

  lemma {:induction false} MergedSpec(combined: seq<string>, more: seq<string>)
    requires Distinct(combined)
    ensures Distinct(Merged(combined, more))
    ensures forall p :: p in Merged(combined, more) <==> p in combined || p in more
    decreases |more|
  {
    if |more| > 0 {
      assert more == [more[0]] + more[1..];
      MergedSpec(if more[0] in combined then combined else combined + [more[0]], more[1..]);
    }
  }

  lemma {:induction false} MergedDisjoint(combined: seq<string>, more: seq<string>)
    requires Distinct(more) && forall p :: p in more ==> p !in combined
    ensures Merged(combined, more) == combined + more
    decreases |more|
  {
    if |more| == 0 {
      assert combined + more == combined;
    } else {
      var x, rest := more[0], more[1..];
      assert more == [x] + rest && x in more && x !in rest;
      forall p | p in rest ensures p !in combined + [x] {
        assert p in more;
      }
      MergedDisjoint(combined + [x], rest);
      assert combined + [x] + rest == combined + more;
    }
  }

  lemma EnoughTargets(combined: seq<string>, top: seq<string>)
    requires Distinct(combined) && Distinct(top) && forall p :: p in top ==> p in combined
    ensures |combined| >= |top|
  {
    DistinctSize(combined);
    DistinctSize(top);
    assert ToSet(combined) == ToSet(top) + (ToSet(combined) - ToSet(top));
  }

  lemma TargetsSpec(chunkHash: string, alive: seq<string>, ranking: seq<string>, k: nat, xorPart: seq<string>, combined: seq<string>)
    requires Distinct(alive) && Distinct(ranking) && ToSet(ranking) == ToSet(alive) && |ranking| == |alive|
    requires xorPart == Merged([], Names(Nearest(chunkHash, alive, k))) && combined == Merged(xorPart, Take(ranking, 2 * k))
    ensures var r := Take(combined, k);
            && |r| == (if k <= |alive| then k else |alive|)
            && Distinct(r) && (forall p :: p in r ==> p in alive)
            && (AllMeasurable(chunkHash, alive) ==> r == Names(Nearest(chunkHash, alive, k)))
  {
    var top, best := Names(Nearest(chunkHash, alive, k)), Take(ranking, 2 * k);
    XorTopFirst(chunkHash, alive, k);
    assert Distinct(combined) && (forall p :: p in combined ==> p in alive) && |best| <= |combined| <= |alive| by {
      CombinedSpec(chunkHash, alive, ranking, k, top, best);
    }
    TakenTargets(combined, alive, top, k);
  }

  lemma CombinedSpec(chunkHash: string, alive: seq<string>, ranking: seq<string>, k: nat, top: seq<string>, best: seq<string>)
    requires Distinct(alive) && Distinct(ranking) && ToSet(ranking) == ToSet(alive)
    requires top == Names(Nearest(chunkHash, alive, k)) && best == Take(ranking, 2 * k) && Distinct(top)
    ensures var combined := Merged(top, best);
            Distinct(combined) && (forall p :: p in combined ==> p in alive) && |best| <= |combined| <= |alive|
  {
    var combined := Merged(top, best);
    MergedSpec(top, best);
    CombinedAlive(chunkHash, alive, ranking, k, combined);
    EnoughTargets(combined, best);
    EnoughTargets(alive, combined);
  }

  lemma TakenTargets(combined: seq<string>, alive: seq<string>, top: seq<string>, k: nat)
    requires Distinct(combined) && (forall p :: p in combined ==> p in alive) && top <= combined && |top| <= k
    requires |combined| <= |alive| && (|combined| >= k || |combined| >= |alive|)
    ensures var r := Take(combined, k);
            && |r| == (if k <= |alive| then k else |alive|) && Distinct(r) && (forall p :: p in r ==> p in alive)
            && (|top| == (if k <= |alive| then k else |alive|) ==> r == top)
  {
  }

  lemma XorTopFirst(chunkHash: string, alive: seq<string>, k: nat)
    requires Distinct(alive)
    ensures var top := Names(Nearest(chunkHash, alive, k));
            && Merged([], top) == top && Distinct(top) && |top| <= k
            && (AllMeasurable(chunkHash, alive) ==> |top| == if k <= |alive| then k else |alive|)
  {
    MeasuredSpec(chunkHash, alive);
    NearestSpec(chunkHash, alive, k);
    MergedDisjoint([], Names(Nearest(chunkHash, alive, k)));
  }

  lemma CombinedAlive(chunkHash: string, alive: seq<string>, ranking: seq<string>, k: nat, combined: seq<string>)
    requires Distinct(alive) && ToSet(ranking) == ToSet(alive)
    requires forall p :: p in combined ==> p in Names(Nearest(chunkHash, alive, k)) || p in Take(ranking, 2 * k)
    ensures forall p :: p in combined ==> p in alive
  {
    NearestNames(chunkHash, alive, k);
    forall p | p in combined ensures p in alive {
      if p in Take(ranking, 2 * k) {
        assert p in ToSet(ranking);
      }
    }
  }

  // ---------------------------------------------------------------- how the targets are filled up

  function Without(xs: seq<string>, drop: seq<string>): seq<string> {
    if |xs| == 0 then [] else (if xs[0] in drop then [] else [xs[0]]) + Without(xs[1..], drop)
  }

  lemma WithoutCons(x: string, xs: seq<string>, drop: seq<string>)
    ensures Without([x] + xs, drop) == (if x in drop then [] else [x]) + Without(xs, drop)
  {
    assert ([x] + xs)[1..] == xs;
  }

  lemma {:induction false} WithoutConcat(a: seq<string>, b: seq<string>, drop: seq<string>)
    ensures Without(a + b, drop) == Without(a, drop) + Without(b, drop)
  {
    if |a| == 0 {
      assert a + b == b;
    } else {
      assert a == [a[0]] + a[1..];
      Regroup([a[0]], a[1..], b);
      WithoutConcat(a[1..], b, drop);
      WithoutCons(a[0], a[1..] + b, drop);
    }
  }

  lemma {:induction false} WithoutMembers(xs: seq<string>, drop: seq<string>)
    ensures forall x :: x in Without(xs, drop) <==> x in xs && x !in drop
    ensures Distinct(xs) ==> Distinct(Without(xs, drop))
  {
    if |xs| > 0 {
      WithoutMembers(xs[1..], drop);
      assert xs == [xs[0]] + xs[1..];
      if Distinct(xs) {
        assert xs[0] !in xs[1..];
      }
    }
  }

  lemma WithoutMost(xs: seq<string>, drop: seq<string>)
    requires Distinct(xs)
    ensures |Without(xs, drop)| + |drop| >= |xs|
  {
    WithoutMembers(xs, drop);
    DistinctSize(xs);
    DistinctSize(Without(xs, drop));
    SetAtMost(drop);
    assert ToSet(xs) <= ToSet(Without(xs, drop)) + ToSet(drop);
    SubsetSize(ToSet(xs), ToSet(Without(xs, drop)) + ToSet(drop));
  }

  lemma {:induction false} SetAtMost(xs: seq<string>)
    ensures |ToSet(xs)| <= |xs|
  {
    if |xs| > 0 {
      SetAtMost(xs[1..]);
      assert ToSet(xs) == {xs[0]} + ToSet(xs[1..]);
    }
  }

  lemma {:induction false} MergedIsUnion(combined: seq<string>, more: seq<string>)
    requires Distinct(more)
    ensures Merged(combined, more) == combined + Without(more, combined)
    decreases |more|
  {
    if |more| == 0 {
      assert combined + [] == combined;
    } else {
      var x, rest := more[0], more[1..];
      assert x !in rest;
      if x in combined {
        MergedIsUnion(combined, rest);
      } else {
        MergedIsUnion(combined + [x], rest);
        WithoutUnmentioned(rest, combined, x);
        Regroup(combined, [x], Without(rest, combined));
      }
    }
  }

  lemma {:induction false} WithoutUnmentioned(xs: seq<string>, drop: seq<string>, x: string)
    requires x !in xs
    ensures Without(xs, drop + [x]) == Without(xs, drop)
  {
    if |xs| > 0 {
      WithoutUnmentioned(xs[1..], drop, x);
    }
  }

  lemma TakeFront<T>(a: seq<T>, b: seq<T>, k: nat)
    requires k <= |a|
    ensures Take(a + b, k) == Take(a, k)
  {
  }

  lemma TakeWhole<T>(top: seq<T>, near: seq<T>, far: seq<T>, k: nat)
    requires far == [] || k <= |top| + |near|
    ensures Take(top + near, k) == Take(top + (near + far), k)
  {
    Regroup(top, near, far);
    if far == [] {
      assert near + far == near;
    } else {
      TakeFront(top + near, far, k);
    }
  }

  /** What is left of the first part of a ranking is enough, when the part is long enough. */
  lemma FirstAreEnough(top: seq<string>, first: seq<string>, rest: seq<string>, k: nat)
    requires Distinct(first) && |top| <= k && (rest == [] || |first| == 2 * k)
    ensures Take(top + Without(first, top), k) == Take(top + Without(first + rest, top), k)
  {
    WithoutConcat(first, rest, top);
    WithoutMost(first, top);
    TakeWhole(top, Without(first, top), Without(rest, top), k);
  }

  /** The XOR-nearest come first, and the rest is filled up from the heuristic ranking in its order; looking at only the
      first 2k of the ranking leaves nobody out. */
  lemma TargetsFillUp(top: seq<string>, ranking: seq<string>, k: nat)
    requires Distinct(ranking) && |top| <= k
    ensures Take(Merged(top, Take(ranking, 2 * k)), k) == Take(top + Without(ranking, top), k)
  {
    var first := Take(ranking, 2 * k);
    var rest := ranking[|first|..];
    MergedIsUnion(top, first);
    FirstAreEnough(top, first, rest, k);
    assert first + rest == ranking;
  }

  // ---------------------------------------------------------------- the routing table

  class RoutingTable {
    var table: map<string, seq<string>>

    constructor ()
      ensures table == map[]
    {
      table := map[];
    }

    method AssignChunk(chunkHash: string, peers: seq<string>)
      modifies this
      ensures table == old(table)[chunkHash := peers]
    {
      table := table[chunkHash := peers];
    }

    method GetHolders(chunkHash: string) returns (holders: seq<string>)
      ensures holders == if chunkHash in table then table[chunkHash] else []
    {
      holders := if chunkHash in table then table[chunkHash] else [];
    }
  }
}
