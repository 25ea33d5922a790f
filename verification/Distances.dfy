/** The distance between hex ids (backend/dht/routing.py:13-20), bit by bit and digit by digit, and what it
    means for the peers that are picked (backend/dht/routing.py:23-53,
    backend/strategies/replication.py:161-184). */
module Distances {
  import opened Seqs
  import opened Routing

  // ---------------------------------------------------------------- hex ids

  const LOWER := "0123456789abcdef"
  const UPPER := "0123456789ABCDEF"

  /** c is the hex digit of value d, in either case. */
  predicate IsDigit(c: char, d: nat) {
    d < 16 && (c == LOWER[d] || c == UPPER[d])
  }

  ghost predicate HexChar(c: char) {
    exists d: nat :: IsDigit(c, d)
  }

  ghost predicate HexChars(s: string) {
    forall i :: 0 <= i < |s| ==> HexChar(s[i])
  }

  ghost predicate IsHex(s: string) {
    |s| > 0 && HexChars(s)
  }

  /** The value of a hex digit; 0 for other characters. */
  ghost function Digit(c: char): nat {
    if HexChar(c) then var d: nat :| IsDigit(c, d); d else 0
  }

  function Pow2(n: nat): (p: nat)
    ensures p > 0
  {
    if n == 0 then 1 else 2 * Pow2(n - 1)
  }

  function Pow16(n: nat): (p: nat)
    ensures p > 0
  {
    if n == 0 then 1 else 16 * Pow16(n - 1)
  }

  /** The sum of the digits, each times its power of 16. */
  ghost function Positional(s: string): nat {
    if |s| == 0 then 0 else Digit(s[0]) * Pow16(|s| - 1) + Positional(s[1..])
  }

  /** The same number, read from the left: 16 times what came before, and the next digit. */
  ghost function Value(s: string): nat {
    if |s| == 0 then 0 else 16 * Value(s[..|s| - 1]) + Digit(s[|s| - 1])
  }

  /** Bit i of n. */
  predicate Bit(n: nat, i: nat) {
    if i == 0 then n % 2 == 1 else Bit(n / 2, i - 1)
  }

  lemma DigitIsUnique(c: char, d: nat, e: nat)
    requires IsDigit(c, d) && IsDigit(c, e)
    ensures d == e
  {
    assert d < 10 ==> c == '0' + d as char;
    assert e < 10 ==> c == '0' + e as char;
  }

  lemma DigitIs(c: char, d: nat)
    requires IsDigit(c, d)
    ensures HexChar(c) && Digit(c) == d
  {
    DigitIsUnique(c, d, Digit(c));
  }

  lemma DigitBound(c: char)
    ensures Digit(c) < 16
  {
  }

  lemma DigitIsParsed(c: char)
    ensures HexDigit(c) == if HexChar(c) then Some(Digit(c)) else None
  {
    if HexDigit(c).Some? {
      DigitIs(c, HexDigit(c).value);
    }
    if HexChar(c) {
      var d: nat :| IsDigit(c, d);
      DigitIs(c, d);
      assert HexDigit(c) == Some(d);
    }
  }

  lemma Shift(d: nat, p: nat)
    ensures d * (16 * p) == 16 * (d * p)
  {
  }

  lemma {:induction false} PositionalSnoc(s: string, c: char)
    ensures Positional(s + [c]) == 16 * Positional(s) + Digit(c)
  {
    if |s| == 0 {
      assert s + [c] == [c];
      assert [c][1..] == "";
    } else {
      assert (s + [c])[1..] == s[1..] + [c];
      PositionalSnoc(s[1..], c);
      Shift(Digit(s[0]), Pow16(|s| - 1));
    }
  }

  lemma {:induction false} ValueIsPositional(s: string)
    ensures Value(s) == Positional(s)
  {
    if |s| > 0 {
      ValueIsPositional(s[..|s| - 1]);
      PositionalSnoc(s[..|s| - 1], s[|s| - 1]);
      assert s == s[..|s| - 1] + [s[|s| - 1]];
    }
  }

  lemma ValueSnoc(s: string, c: char)
    ensures Value(s + [c]) == 16 * Value(s) + Digit(c)
  {
    assert (s + [c])[..|s|] == s;
  }

  lemma HexSnoc(s: string, c: char)
    ensures HexChars(s + [c]) <==> HexChars(s) && HexChar(c)
  {
    if HexChars(s + [c]) {
      forall i | 0 <= i < |s| ensures HexChar(s[i]) {
        assert HexChar((s + [c])[i]);
      }
      assert HexChar((s + [c])[|s|]);
    }
  }

  lemma {:induction false} DigitsAreValue(s: string)
    ensures Digits(s) == if HexChars(s) then Some(Value(s)) else None
  {
    if |s| > 0 {
      var front, last := s[..|s| - 1], s[|s| - 1];
      DigitsAreValue(front);
      DigitIsParsed(last);
      ValueSnoc(front, last);
      HexSnoc(front, last);
      assert s == front + [last];
    }
  }

  /** The distance of two ids exists exactly when both are hex. */
  lemma DistanceOf(a: string, b: string)
    ensures Distance(a, b) == if IsHex(a) && IsHex(b) then Some(Xor(Value(a), Value(b))) else None
  {
    DigitsAreValue(a);
    DigitsAreValue(b);
  }

  // ---------------------------------------------------------------- bit by bit

  lemma AtLeastOnce(k: int, m: nat)
    requires k >= 1
    ensures k * m >= m
  {
  }

  lemma DivisionIs(n: nat, m: nat, q: nat, r: nat)
    requires r < m && n == q * m + r
    ensures n / m == q
  {
    var p := n / m;
    assert n == p * m + n % m;
    assert (q - p) * m == q * m - p * m && (p - q) * m == p * m - q * m;
    if p < q {
      AtLeastOnce(q - p, m);
    } else if q < p {
      AtLeastOnce(p - q, m);
    }
  }

  lemma HalfFirst(n: nat, p: nat)
    requires p > 0
    ensures n / (2 * p) == n / 2 / p
  {
    var q, r := n / 2 / p, n / 2 % p;
    assert n / 2 == q * p + r;
    assert q * (2 * p) == 2 * (q * p);
    DivisionIs(n, 2 * p, q, 2 * r + n % 2);
  }

  lemma {:induction false} BitIs(n: nat, i: nat)
    ensures Bit(n, i) <==> n / Pow2(i) % 2 == 1
  {
    if i > 0 {
      BitIs(n / 2, i - 1);
      HalfFirst(n, Pow2(i - 1));
    }
  }

  lemma {:induction false} XorBit(a: nat, b: nat, i: nat)
    ensures Bit(Xor(a, b), i) <==> Bit(a, i) != Bit(b, i)
  {
    XorHalves(a, b);
    if i > 0 {
      XorBit(a / 2, b / 2, i - 1);
    }
  }

  /** The bits of n are set where those of x and y differ. */
  ghost predicate DiffBits(n: nat, x: nat, y: nat) {
    forall i: nat :: Bit(n, i) <==> Bit(x, i) != Bit(y, i)
  }

  /** Two ids are at a distance exactly when both are hex; a bit of the distance is set exactly when that bit
      of the two numbers differs; and no other number has these bits. */
  lemma DistanceBits(a: string, b: string)
    ensures Distance(a, b).Some? <==> IsHex(a) && IsHex(b)
    ensures Distance(a, b).Some? ==>
              forall n :: DiffBits(n, Positional(a), Positional(b)) <==> n == Distance(a, b).value
  {
    DistanceOf(a, b);
    ValueIsPositional(a);
    ValueIsPositional(b);
    if Distance(a, b).Some? {
      OnlyXorDiffers(Positional(a), Positional(b));
    }
  }

  lemma OnlyXorDiffers(x: nat, y: nat)
    ensures forall n :: DiffBits(n, x, y) <==> n == Xor(x, y)
  {
    forall i: nat ensures Bit(Xor(x, y), i) <==> Bit(x, i) != Bit(y, i) {
      XorBit(x, y, i);
    }
    assert DiffBits(Xor(x, y), x, y);
    forall n | DiffBits(n, x, y) ensures n == Xor(x, y) {
      BitsDetermine(n, Xor(x, y), x, y);
    }
  }

  lemma BitsDetermine(m: nat, n: nat, x: nat, y: nat)
    requires DiffBits(m, x, y) && DiffBits(n, x, y)
    ensures m == n
  {
    forall i: nat ensures Bit(m, i) <==> Bit(n, i) {
      assert Bit(m, i) <==> Bit(x, i) != Bit(y, i);
    }
    SameBits(m, n);
  }

  lemma {:induction false} SameBits(m: nat, n: nat)
    requires forall i: nat :: Bit(m, i) <==> Bit(n, i)
    ensures m == n
    decreases m + n
  {
    if m != 0 || n != 0 {
      forall i: nat ensures Bit(m / 2, i) <==> Bit(n / 2, i) {
        assert Bit(m, i + 1) <==> Bit(n, i + 1);
      }
      SameBits(m / 2, n / 2);
      assert Bit(m, 0) <==> Bit(n, 0);
    }
  }

  // ---------------------------------------------------------------- digit by digit

  /** What matters of exclusive or here: it works bit by bit, and is 0 only for equal numbers. */
  ghost predicate Bitwise(f: (nat, nat) -> nat) {
    && (forall a: nat, b: nat, i: nat, j: nat :: i < 2 && j < 2 ==> OneBit(f, a, b, i, j))
    && (forall a: nat, b: nat :: f(a, b) == 0 <==> a == b)
  }

  predicate OneBit(f: (nat, nat) -> nat, a: nat, b: nat, i: nat, j: nat) {
    f(2 * a + i, 2 * b + j) == 2 * f(a, b) + f(i, j) && f(i, j) < 2
  }

  lemma XorOneBit(a: nat, b: nat, i: nat, j: nat)
    requires i < 2 && j < 2
    ensures Xor(2 * a + i, 2 * b + j) == 2 * Xor(a, b) + Xor(i, j)
    ensures Xor(i, j) < 2
  {
    assert (2 * a + i) / 2 == a && (2 * b + j) / 2 == b;
    assert Xor(i, j) == (i + j) % 2 by {
      assert Xor(0, 0) == 0;
    }
  }

  lemma XorIsBitwise()
    ensures Bitwise(Xor)
  {
    forall a: nat, b: nat, i: nat, j: nat | i < 2 && j < 2 ensures OneBit(Xor, a, b, i, j) {
      XorOneBit(a, b, i, j);
    }
    forall a: nat, b: nat ensures Xor(a, b) == 0 <==> a == b {
      XorIdentity(a, b);
    }
  }

  lemma TwoBits(f: (nat, nat) -> nat, a: nat, b: nat, u: nat, v: nat)
    requires Bitwise(f) && u < 4 && v < 4
    ensures f(4 * a + u, 4 * b + v) == 4 * f(a, b) + f(u, v) && f(u, v) < 4
  {
    assert OneBit(f, a, b, u / 2, v / 2);
    assert OneBit(f, 2 * a + u / 2, 2 * b + v / 2, u % 2, v % 2);
    assert OneBit(f, u / 2, v / 2, u % 2, v % 2);
    assert 2 * (2 * a + u / 2) + u % 2 == 4 * a + u && 2 * (2 * b + v / 2) + v % 2 == 4 * b + v;
    assert 2 * (u / 2) + u % 2 == u && 2 * (v / 2) + v % 2 == v;
  }

  /** The last hex digit does not interfere with the others. */
  lemma LastDigit(f: (nat, nat) -> nat, a: nat, b: nat, d: nat, e: nat)
    requires Bitwise(f) && d < 16 && e < 16
    ensures f(16 * a + d, 16 * b + e) == 16 * f(a, b) + f(d, e) && f(d, e) < 16
  {
    TwoBits(f, a, b, d / 4, e / 4);
    TwoBits(f, 4 * a + d / 4, 4 * b + e / 4, d % 4, e % 4);
    TwoBits(f, d / 4, e / 4, d % 4, e % 4);
    assert 4 * (4 * a + d / 4) + d % 4 == 16 * a + d && 4 * (4 * b + e / 4) + e % 4 == 16 * b + e;
    assert 4 * (d / 4) + d % 4 == d && 4 * (e / 4) + e % 4 == e;
  }

  lemma {:induction false} ValueBound(s: string)
    ensures Value(s) < Pow16(|s|)
  {
    if |s| > 0 {
      ValueBound(s[..|s| - 1]);
      DigitBound(s[|s| - 1]);
    }
  }

  /** How many leading digits two ids share. */
  ghost function CommonDigits(a: string, b: string): nat {
    if |a| == 0 || |b| == 0 || Digit(a[0]) != Digit(b[0]) then 0 else 1 + CommonDigits(a[1..], b[1..])
  }

  lemma {:induction false} CommonBound(a: string, b: string)
    ensures CommonDigits(a, b) <= |a| && CommonDigits(a, b) <= |b|
  {
    if |a| > 0 && |b| > 0 && Digit(a[0]) == Digit(b[0]) {
      CommonBound(a[1..], b[1..]);
    }
  }

  /** The shared prefix tells the distance up to a factor of 16. */
  lemma {:induction false} PrefixTellsDistance(f: (nat, nat) -> nat, a: string, b: string)
    requires Bitwise(f) && |a| == |b|
    ensures InDecade(f(Value(a), Value(b)), |a|, CommonDigits(a, b))
  {
    if |a| > 0 {
      var n := |a| - 1;
      var s, t := a[..n], b[..n];
      PrefixTellsDistance(f, s, t);
      DigitBound(a[n]);
      DigitBound(b[n]);
      CommonLast(a, b);
      OneDigitMore(f, Value(s), Value(t), Digit(a[n]), Digit(b[n]), n, CommonDigits(s, t));
    }
  }

  lemma {:induction false} CommonLast(a: string, b: string)
    requires |a| == |b| > 0
    ensures CommonDigits(a, b) == OneMoreCommon(|a| - 1, CommonDigits(a[..|a| - 1], b[..|a| - 1]), Digit(a[|a| - 1]), Digit(b[|a| - 1]))
  {
    var n := |a| - 1;
    if n > 0 && Digit(a[0]) == Digit(b[0]) {
      CommonLast(a[1..], b[1..]);
      assert a[1..][..n - 1] == a[..n][1..] && b[1..][..n - 1] == b[..n][1..];
    }
  }

  /** The shared prefix of ids of n + 1 digits, by that of all but the last, which are d and e. */
  function OneMoreCommon(n: nat, c: nat, d: nat, e: nat): nat {
    if c < n then c else n + if d == e then 1 else 0
  }

  lemma OneDigitMore(f: (nat, nat) -> nat, x: nat, y: nat, d: nat, e: nat, n: nat, c: nat)
    requires Bitwise(f) && InDecade(f(x, y), n, c) && d < 16 && e < 16
    ensures InDecade(f(16 * x + d, 16 * y + e), n + 1, OneMoreCommon(n, c, d, e))
  {
    LastDigit(f, x, y, d, e);
    NextDecade(f(x, y), n, c, f(d, e));
  }

  /** d is what ids of n digits that share exactly c leading ones can be apart. */
  predicate InDecade(d: nat, n: nat, c: nat) {
    if c == n then d == 0 else c < n && Pow16(n - c - 1) <= d < Pow16(n - c)
  }

  lemma NextDecade(d: nat, n: nat, c: nat, x: nat)
    requires InDecade(d, n, c) && x < 16
    ensures c < n ==> InDecade(16 * d + x, n + 1, c)
    ensures c == n ==> InDecade(16 * d + x, n + 1, if x == 0 then n + 1 else n)
  {
    assert Pow16(0) == 1 && Pow16(1) == 16;
    if c < n {
      assert Pow16(n + 1 - c) == 16 * Pow16(n - c) && Pow16(n + 1 - c - 1) == 16 * Pow16(n - c - 1);
    }
  }

  lemma {:induction false} Pow16Grows(m: nat, n: nat)
    requires m <= n
    ensures Pow16(m) <= Pow16(n)
  {
    if m < n {
      Pow16Grows(m, n - 1);
    }
  }

  /** Of two ids as long as the target, the one that shares more leading digits with it is strictly nearer. */
  lemma LongerPrefixIsNearer(target: string, a: string, b: string)
    requires IsHex(target) && IsHex(a) && IsHex(b) && |a| == |b| == |target|
    requires CommonDigits(target, a) > CommonDigits(target, b)
    ensures Distance(target, a).Some? && Distance(target, b).Some? && Distance(target, a).value < Distance(target, b).value
  {
    DistanceOf(target, a);
    DistanceOf(target, b);
    XorIsBitwise();
    LongerPrefixIsLess(Xor, target, a, b);
  }

  lemma AtLeast(d: nat, n: nat, c: nat, m: nat)
    requires InDecade(d, n, c) && c < m <= n
    ensures Pow16(n - m) <= d
  {
    Pow16Grows(n - m, n - c - 1);
  }

  lemma Below(d: nat, n: nat, c: nat, m: nat)
    requires InDecade(d, n, c) && m <= c
    ensures m <= n && d < Pow16(n - m)
  {
    Pow16Grows(n - c, n - m);
  }

  lemma DecadesOrder(x: nat, y: nat, n: nat, c: nat, d: nat)
    requires InDecade(x, n, c) && InDecade(y, n, d) && d < c
    ensures x < y
  {
    Below(x, n, c, c);
    AtLeast(y, n, d, c);
  }

  lemma LongerPrefixIsLess(f: (nat, nat) -> nat, t: string, a: string, b: string)
    requires Bitwise(f) && |a| == |b| == |t| && CommonDigits(t, a) > CommonDigits(t, b)
    ensures f(Value(t), Value(a)) < f(Value(t), Value(b))
  {
    PrefixTellsDistance(f, t, a);
    PrefixTellsDistance(f, t, b);
    DecadesOrder(f(Value(t), Value(a)), f(Value(t), Value(b)), |t|, CommonDigits(t, a), CommonDigits(t, b));
  }

  // ---------------------------------------------------------------- the metric of ids of one length

  /** The same digits, whatever the case of the letters. */
  ghost predicate SameDigits(a: string, b: string) {
    |a| == |b| && forall i :: 0 <= i < |a| ==> Digit(a[i]) == Digit(b[i])
  }

  lemma {:induction false} AllCommon(a: string, b: string)
    requires |a| == |b|
    ensures CommonDigits(a, b) == |a| <==> SameDigits(a, b)
  {
    CommonBound(a, b);
    if |a| > 0 {
      AllCommon(a[1..], b[1..]);
      CommonBound(a[1..], b[1..]);
      if SameDigits(a, b) {
        assert SameDigits(a[1..], b[1..]);
      }
      if SameDigits(a[1..], b[1..]) && Digit(a[0]) == Digit(b[0]) {
        forall i | 0 <= i < |a| ensures Digit(a[i]) == Digit(b[i]) {
          assert i > 0 ==> a[i] == a[1..][i - 1] && b[i] == b[1..][i - 1];
        }
      }
    }
  }

  /** The digits of v, n of them, in lower case. */
  function Spell(n: nat, v: nat): string {
    if n == 0 then "" else Spell(n - 1, v / 16) + [LOWER[v % 16]]
  }

  lemma {:induction false} SpellSpells(n: nat, v: nat)
    requires v < Pow16(n)
    ensures |Spell(n, v)| == n && HexChars(Spell(n, v)) && Value(Spell(n, v)) == v
  {
    if n > 0 {
      var front, last := Spell(n - 1, v / 16), LOWER[v % 16];
      SpellSpells(n - 1, v / 16);
      DigitIs(last, v % 16);
      ValueSnoc(front, last);
      HexSnoc(front, last);
    }
  }

  /** The metric laws for ids of one length: distance 0 means the same digits, the distance is symmetric and
      satisfies the triangle inequality. */
  lemma DistanceIsMetric(a: string, b: string, c: string)
    requires IsHex(a) && IsHex(b) && IsHex(c) && |a| == |b| == |c|
    ensures Distance(a, b).Some? && Distance(b, c).Some? && Distance(a, c).Some?
    ensures Distance(a, b) == Some(0) <==> SameDigits(a, b)
    ensures Distance(b, a) == Distance(a, b)
    ensures Distance(a, c).value <= Distance(a, b).value + Distance(b, c).value
    ensures Distance(a, b).value < Pow16(|a|)
  {
    var x, y, z := Value(a), Value(b), Value(c);
    DistanceOf(a, b);
    DistanceOf(b, a);
    DistanceOf(b, c);
    DistanceOf(a, c);
    ZeroIsSame(a, b);
    XorSymmetric(x, y);
    XorTriangle(x, y, z);
    XorInRange(a, y);
  }

  lemma ZeroIsSame(a: string, b: string)
    requires |a| == |b|
    ensures Xor(Value(a), Value(b)) == 0 <==> SameDigits(a, b)
    ensures Value(b) < Pow16(|a|)
  {
    XorIsBitwise();
    PrefixTellsDistance(Xor, a, b);
    AllCommon(a, b);
    ValueBound(b);
  }

  lemma {:induction false} InRange(f: (nat, nat) -> nat, n: nat, x: nat, y: nat)
    requires Bitwise(f) && x < Pow16(n) && y < Pow16(n)
    ensures f(x, y) < Pow16(n)
  {
    if n > 0 {
      InRange(f, n - 1, x / 16, y / 16);
      LastDigit(f, x / 16, y / 16, x % 16, y % 16);
    }
  }

  lemma XorInRange(a: string, y: nat)
    requires y < Pow16(|a|)
    ensures Xor(Value(a), y) < Pow16(|a|)
  {
    ValueBound(a);
    XorIsBitwise();
    InRange(Xor, |a|, Value(a), y);
  }

  /** From an id there is, among the ids of its length, one at every distance in range, and no two that differ
      in more than the case of letters. */
  lemma OneIdAtEachDistance(a: string, d: nat)
    requires IsHex(a) && d < Pow16(|a|)
    ensures exists b :: IsHex(b) && |b| == |a| && Distance(a, b) == Some(d)
    ensures forall b, c :: IsHex(b) && IsHex(c) && |b| == |c| == |a| && Distance(a, b) == Some(d) && Distance(a, c) == Some(d)
              ==> SameDigits(b, c)
  {
    var v := Xor(Value(a), d);
    XorInRange(a, d);
    SpellSpells(|a|, v);
    XorUnique(Value(a), d);
    var id := Spell(|a|, v);
    DistanceOf(a, id);
    assert IsHex(id) && Distance(a, id) == Some(d);
    forall b, c | IsHex(b) && IsHex(c) && |b| == |c| == |a| && Distance(a, b) == Some(d) && Distance(a, c) == Some(d)
      ensures SameDigits(b, c)
    {
      DistanceOf(a, b);
      DistanceOf(a, c);
      SameNumber(b, c);
    }
  }

  lemma SameNumber(b: string, c: string)
    requires |b| == |c| && Value(b) == Value(c)
    ensures SameDigits(b, c)
  {
    XorIdentity(Value(b), Value(c));
    ZeroIsSame(b, c);
  }

  // ---------------------------------------------------------------- the nearest peers

  lemma Unnamed(r: seq<Ranked>, x: Ranked)
    requires x.0 !in Names(r)
    ensures x !in r
  {
    forall j | 0 <= j < |r| ensures r[j] != x {
      assert Names(r)[j] == r[j].0;
    }
  }

  /** No peer that is left out is nearer, as hex numbers go, than one that is picked. */
  lemma NearestAreNearest(target: string, ids: seq<string>, k: nat, picked: string, other: string)
    requires Distinct(ids) && IsHex(target) && IsHex(picked) && IsHex(other)
    requires picked in Names(Nearest(target, ids, k)) && other in ids && other !in Names(Nearest(target, ids, k))
    ensures Distance(target, picked).Some? && Distance(target, other).Some?
    ensures Distance(target, picked).value <= Distance(target, other).value
  {
    DistanceOf(target, picked);
    DistanceOf(target, other);
    MeasuredSpec(target, ids);
    NearestSpec(target, ids, k);
    var r := Nearest(target, ids, k);
    var i :| 0 <= i < |r| && Names(r)[i] == picked;
    var x := (other, Distance(target, other).value);
    Unnamed(r, x);
    assert x in Measured(target, ids) && r[i] in r && r[i] in Measured(target, ids);
  }

  /** Among ids as long as the target, none that is left out shares more leading digits with it than one that
      is picked. */
  lemma NearestShareTheLongestPrefix(target: string, ids: seq<string>, k: nat, picked: string, other: string)
    requires Distinct(ids) && IsHex(target) && IsHex(picked) && IsHex(other) && |picked| == |other| == |target|
    requires picked in Names(Nearest(target, ids, k)) && other in ids && other !in Names(Nearest(target, ids, k))
    ensures CommonDigits(target, other) <= CommonDigits(target, picked)
  {
    NearestAreNearest(target, ids, k, picked, other);
    if CommonDigits(target, other) > CommonDigits(target, picked) {
      LongerPrefixIsNearer(target, other, picked);
    }
  }
}
