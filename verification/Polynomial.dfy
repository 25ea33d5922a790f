/** Polynomial evaluation codes over the integers: a concrete family that meets the contracts under
    which the erasure and threshold modules use their libraries (any k shards of distinct index
    determine the data), so these contracts are satisfiable for every 1 <= k <= n. */
module Polynomial {
  import opened Seqs

  type Block = seq<int>

  function Eval(c: seq<int>, x: int): int {
    if |c| == 0 then 0 else c[0] + x * Eval(c[1..], x)
  }

  /** Synthetic division by (x - r). */
  function Quotient(c: seq<int>, r: int): (q: seq<int>)
    ensures |q| == if |c| == 0 then 0 else |c| - 1
  {
    if |c| <= 1 then [] else [Eval(c[1..], r)] + Quotient(c[1..], r)
  }

  predicate AllZero(c: seq<int>) {
    forall i :: 0 <= i < |c| ==> c[i] == 0
  }

  lemma DivisionStep(x: int, r: int, atX: int, atR: int, q: int)
    requires atX == atR + (x - r) * q
    ensures x * atX - r * atR == (x - r) * (atR + x * q)
  {
    assert x * atX == x * atR + x * ((x - r) * q);
    assert (x - r) * (atR + x * q) == (x - r) * atR + (x - r) * (x * q);
  }

  lemma {:induction false} Division(c: seq<int>, r: int, x: int)
    ensures Eval(c, x) - Eval(c, r) == (x - r) * Eval(Quotient(c, r), x)
  {
    if |c| > 1 {
      var d, q := c[1..], Quotient(c[1..], r);
      Division(d, r, x);
      assert Quotient(c, r)[1..] == q;
      DivisionStep(x, r, Eval(d, x), Eval(d, r), Eval(q, x));
    } else if |c| == 1 {
      assert c[1..] == [];
    }
  }

  lemma {:induction false} ZeroQuotient(c: seq<int>, r: int)
    requires AllZero(Quotient(c, r)) && Eval(c, r) == 0
    ensures AllZero(c)
  {
    if |c| == 1 {
      assert c[1..] == [];
    } else if |c| > 1 {
      var q := Quotient(c, r);
      assert q[0] == Eval(c[1..], r);
      assert q[1..] == Quotient(c[1..], r);
      assert AllZero(q[1..]);
      ZeroQuotient(c[1..], r);
      assert forall i :: 1 <= i < |c| ==> c[i] == c[1..][i - 1];
    }
  }

  lemma NoZeroDivisors(a: int, b: int)
    requires a * b == 0 && a != 0
    ensures b == 0
  {
  }

  /** A polynomial with as many distinct roots as coefficients is zero. */
  lemma {:induction false} TooManyRoots(c: seq<int>, roots: seq<int>)
    requires |c| <= |roots| && Distinct(roots)
    requires forall i :: 0 <= i < |roots| ==> Eval(c, roots[i]) == 0
    ensures AllZero(c)
    decreases |roots|
  {
    if |c| > 0 {
      var r, rest := roots[0], roots[1..];
      forall i | 0 <= i < |rest| ensures Eval(Quotient(c, r), rest[i]) == 0 {
        assert rest[i] == roots[i + 1];
        Division(c, r, rest[i]);
        NoZeroDivisors(rest[i] - r, Eval(Quotient(c, r), rest[i]));
      }
      TooManyRoots(Quotient(c, r), rest);
      ZeroQuotient(c, r);
    }
  }

  function Difference(c: seq<int>, d: seq<int>): seq<int>
    requires |c| == |d|
  {
    seq(|c|, i requires 0 <= i < |c| => c[i] - d[i])
  }

  lemma {:induction false} EvalDifference(c: seq<int>, d: seq<int>, x: int)
    requires |c| == |d|
    ensures Eval(Difference(c, d), x) == Eval(c, x) - Eval(d, x)
  {
    if |c| > 0 {
      EvalDifference(c[1..], d[1..], x);
      assert Difference(c, d)[1..] == Difference(c[1..], d[1..]);
      Distribute(x, Eval(c[1..], x), Eval(d[1..], x));
    }
  }

  lemma Distribute(x: int, a: int, b: int)
    ensures x * (a - b) == x * a - x * b
  {
  }

  /** Two polynomials with k coefficients that agree at k distinct points are the same. */
  lemma Interpolation(c: seq<int>, d: seq<int>, points: seq<int>)
    requires |c| == |d| == |points| && Distinct(points)
    requires forall i :: 0 <= i < |points| ==> Eval(c, points[i]) == Eval(d, points[i])
    ensures c == d
  {
    forall i | 0 <= i < |points| ensures Eval(Difference(c, d), points[i]) == 0 {
      EvalDifference(c, d, points[i]);
    }
    TooManyRoots(Difference(c, d), points);
    forall i | 0 <= i < |c| ensures c[i] == d[i] {
      assert Difference(c, d)[i] == 0;
    }
  }

  // ---------------------------------------------------------------- blocks

  /** k blocks of one length. */
  predicate Uniform(blocks: seq<Block>, k: nat, length: nat) {
    |blocks| == k && forall i :: 0 <= i < |blocks| ==> |blocks[i]| == length
  }

  function Column(blocks: seq<Block>, length: nat, j: nat): seq<int>
    requires Uniform(blocks, |blocks|, length) && j < length
  {
    seq(|blocks|, i requires 0 <= i < |blocks| => blocks[i][j])
  }

  /** Position by position, the value at x of the polynomial with the blocks as coefficients. */
  function ShardAt(blocks: seq<Block>, length: nat, x: int): Block
    requires Uniform(blocks, |blocks|, length)
  {
    seq(length, j requires 0 <= j < length => Eval(Column(blocks, length, j), x))
  }

  /** k shards at distinct points determine k blocks. */
  lemma ShardsDetermineBlocks(a: seq<Block>, b: seq<Block>, length: nat, points: seq<int>)
    requires Uniform(a, |points|, length) && Uniform(b, |points|, length) && Distinct(points)
    requires forall i :: 0 <= i < |points| ==> ShardAt(a, length, points[i]) == ShardAt(b, length, points[i])
    ensures a == b
  {
    forall i, j | 0 <= i < |a| && 0 <= j < length ensures a[i][j] == b[i][j] {
      ColumnsAgree(a, b, length, points, j);
      assert Column(a, length, j)[i] == Column(b, length, j)[i];
    }
    forall i | 0 <= i < |a| ensures a[i] == b[i] {
      assert |a[i]| == length && |b[i]| == length;
    }
  }

  lemma ColumnsAgree(a: seq<Block>, b: seq<Block>, length: nat, points: seq<int>, j: nat)
    requires Uniform(a, |points|, length) && Uniform(b, |points|, length) && Distinct(points) && j < length
    requires forall i :: 0 <= i < |points| ==> ShardAt(a, length, points[i]) == ShardAt(b, length, points[i])
    ensures Column(a, length, j) == Column(b, length, j)
  {
    forall i | 0 <= i < |points| ensures Eval(Column(a, length, j), points[i]) == Eval(Column(b, length, j), points[i]) {
      assert ShardAt(a, length, points[i])[j] == ShardAt(b, length, points[i])[j];
    }
    Interpolation(Column(a, length, j), Column(b, length, j), points);
  }
}
