/** The Merkle tree over chunk digests: root, proof and verifier loops
    (backend/file_engine/chunker.py:62-107).

    SHA-256 is a parameter `H` from strings to hex digests of DIGEST_LENGTH characters. No claim
    assumes that `H` is injective: soundness is stated as "equal, or two different strings that
    these very computations hashed have one digest". */
module Merkle {
  import opened Seqs

  const DIGEST_LENGTH: nat := 64

  datatype ProofStep = ProofStep(hash: string, position: string)

  ghost predicate FixedLength(H: string -> string) {
    forall s :: |H(s)| == DIGEST_LENGTH
  }

  predicate AllDigests(level: seq<string>) {
    forall i :: 0 <= i < |level| ==> |level[i]| == DIGEST_LENGTH
  }

  // ---------------------------------------------------------------- the tree

  /** The string hashed for node j of the level above: an odd last node is paired with itself. */
  function Joined(level: seq<string>, j: nat): string
    requires 2 * j < |level|
  {
    level[2 * j] + (if 2 * j + 1 < |level| then level[2 * j + 1] else level[2 * j])
  }

  function NextLevel(H: string -> string, level: seq<string>): (next: seq<string>)
    ensures |next| == (|level| + 1) / 2
    ensures forall j :: 0 <= j < |next| ==> next[j] == H(Joined(level, j))
  {
    seq((|level| + 1) / 2, j requires 0 <= j < (|level| + 1) / 2 => H(Joined(level, j)))
  }

  function Root(H: string -> string, leaves: seq<string>): string
    decreases |leaves|
  {
    if |leaves| == 0 then H("")
    else if |leaves| == 1 then leaves[0]
    else Root(H, NextLevel(H, leaves))
  }

  /** Every string hashed while the root of `leaves` is computed. */
  ghost function TreeInputs(H: string -> string, leaves: seq<string>): set<string>
    decreases |leaves|
  {
    if |leaves| <= 1 then {}
    else (set j | 0 <= j < (|leaves| + 1) / 2 :: Joined(leaves, j)) + TreeInputs(H, NextLevel(H, leaves))
  }

  method ComputeMerkleRoot(H: string -> string, hashes: seq<string>) returns (root: string)
    ensures root == Root(H, hashes)
  {
    if |hashes| == 0 {
      return H("");
    }
    if |hashes| == 1 {
      return hashes[0];
    }
    var level := hashes;
    while |level| > 1
      invariant |level| >= 1
      invariant Root(H, level) == Root(H, hashes)
      decreases |level|
    {
      var nextLevel: seq<string> := [];
      var i := 0;
      while i < |level|
        invariant 0 <= i <= |level| + 1 && i % 2 == 0
        invariant nextLevel == NextLevel(H, level)[..i / 2]
      {
        var left := level[i];
        var right := if i + 1 < |level| then level[i + 1] else level[i];
        assert left + right == Joined(level, i / 2);
        nextLevel := nextLevel + [H(left + right)];
        i := i + 2;
      }
      assert nextLevel == NextLevel(H, level);
      level := nextLevel;
    }
    return level[0];
  }

  /** The smallest trees: the hash of the empty string, the leaf itself, a pair, and three leaves of which the last is
      paired with itself. */
  lemma SmallTrees(H: string -> string, a: string, b: string, c: string)
    ensures Root(H, []) == H("") && Root(H, [a]) == a
    ensures Root(H, [a, b]) == H(a + b)
    ensures Root(H, [a, b, c]) == H(H(a + b) + H(c + c))
  {
    var pair, three, two := [a, b], [a, b, c], [H(a + b), H(c + c)];
    assert NextLevel(H, pair) == [H(a + b)];
    assert Root(H, pair) == Root(H, NextLevel(H, pair));
    assert NextLevel(H, three) == two;
    assert Root(H, three) == Root(H, two);
    assert NextLevel(H, two) == [H(H(a + b) + H(c + c))];
    assert Root(H, two) == Root(H, NextLevel(H, two));
  }

  // ---------------------------------------------------------------- proofs

  /** What one level contributes to the proof of `index`: nothing when no pair contains it. */
  function StepsAt(level: seq<string>, index: int): seq<ProofStep> {
    if 0 <= index < |level| && index % 2 == 0 then
      [ProofStep(if index + 1 < |level| then level[index + 1] else level[index], "right")]
    else if 0 < index <= |level| && index % 2 == 1 then
      [ProofStep(level[index - 1], "left")]
    else []
  }

  function Proof(H: string -> string, leaves: seq<string>, index: int): seq<ProofStep>
    decreases |leaves|
  {
    if |leaves| <= 1 then []
    else StepsAt(leaves, index) + Proof(H, NextLevel(H, leaves), index / 2)
  }

  lemma ProofUnfolds(H: string -> string, level: seq<string>, index: int)
    requires |level| > 1
    ensures Proof(H, level, index) == StepsAt(level, index) + Proof(H, NextLevel(H, level), index / 2)
  {
  }

  /** One pass over a level: hashes its pairs and appends the sibling of `idx`, if a pair holds it. */
  method ClimbLevel(H: string -> string, level: seq<string>, idx: int, proof: seq<ProofStep>)
    returns (nextLevel: seq<string>, extended: seq<ProofStep>)
    ensures nextLevel == NextLevel(H, level)
    ensures extended == proof + StepsAt(level, idx)
  {
    nextLevel := [];
    extended := proof;
    var i := 0;
    while i < |level|
      invariant 0 <= i <= |level| + 1 && i % 2 == 0
      invariant nextLevel == NextLevel(H, level)[..i / 2]
      invariant extended == proof + (if idx < i then StepsAt(level, idx) else [])
    {
      var left := level[i];
      var right := if i + 1 < |level| then level[i + 1] else level[i];
      if i == idx || i + 1 == idx {
        if idx == i {
          extended := extended + [ProofStep(right, "right")];
        } else {
          extended := extended + [ProofStep(left, "left")];
        }
      }
      assert left + right == Joined(level, i / 2);
      nextLevel := nextLevel + [H(left + right)];
      i := i + 2;
    }
  }

  method ComputeMerkleProof(H: string -> string, hashes: seq<string>, index: int) returns (proof: seq<ProofStep>)
    ensures proof == Proof(H, hashes, index)
  {
    if |hashes| <= 1 {
      return [];
    }
    proof := [];
    var level := hashes;
    var idx := index;
    while |level| > 1
      invariant |level| >= 1
      invariant proof + Proof(H, level, idx) == Proof(H, hashes, index)
      decreases |level|
    {
      ProofUnfolds(H, level, idx);
      ghost var rest := Proof(H, NextLevel(H, level), idx / 2);
      Regroup(proof, StepsAt(level, idx), rest);
      level, proof := ClimbLevel(H, level, idx, proof);
      idx := idx / 2;
    }
  }

  function StepInput(current: string, step: ProofStep): string {
    if step.position == "right" then current + step.hash else step.hash + current
  }

  function Climb(H: string -> string, leaf: string, proof: seq<ProofStep>): string
    decreases |proof|
  {
    if |proof| == 0 then leaf
    else Climb(H, H(StepInput(leaf, proof[0])), proof[1..])
  }

  /** Every string hashed while `proof` is checked for `leaf`. */
  ghost function ClimbInputs(H: string -> string, leaf: string, proof: seq<ProofStep>): set<string>
    decreases |proof|
  {
    if |proof| == 0 then {}
    else {StepInput(leaf, proof[0])} + ClimbInputs(H, H(StepInput(leaf, proof[0])), proof[1..])
  }

  method VerifyMerkleProof(H: string -> string, chunkHash: string, proof: seq<ProofStep>, merkleRoot: string)
    returns (ok: bool)
    ensures ok <==> Climb(H, chunkHash, proof) == merkleRoot
  {
    var current := chunkHash;
    for k := 0 to |proof|
      invariant Climb(H, current, proof[k..]) == Climb(H, chunkHash, proof)
    {
      var step := proof[k];
      assert proof[k..][1..] == proof[k + 1..];
      if step.position == "right" {
        current := H(current + step.hash);
      } else {
        current := H(step.hash + current);
      }
    }
    return current == merkleRoot;
  }

  // ---------------------------------------------------------------- completeness

  function Pow2(d: nat): nat {
    if d == 0 then 1 else 2 * Pow2(d - 1)
  }

  /** d is the ceiling of the base-2 logarithm of n. */
  predicate IsCeilLog2(n: nat, d: nat) {
    n <= Pow2(d) && (d > 0 ==> Pow2(d - 1) < n)
  }

  /** The step a pair contributes rebuilds exactly the string hashed for that pair. */
  lemma StepRebuildsPair(level: seq<string>, leaf: nat, index: nat)
    requires leaf < |level| && index / 2 == leaf / 2
    requires index == leaf || (index == |level| && index % 2 == 1)
    ensures |StepsAt(level, index)| == 1
    ensures StepInput(level[leaf], StepsAt(level, index)[0]) == Joined(level, leaf / 2)
  {
    if index % 2 == 0 {
      assert 2 * (leaf / 2) == index == leaf;
    } else {
      assert 2 * (leaf / 2) == index - 1;
    }
  }

  lemma ClimbFirst(H: string -> string, leaf: string, step: ProofStep, rest: seq<ProofStep>)
    ensures Climb(H, leaf, [step] + rest) == Climb(H, H(StepInput(leaf, step)), rest)
  {
    assert ([step] + rest)[1..] == rest;
  }

  /** Every generated proof verifies, odd levels included. */
  lemma {:induction false} Completeness(H: string -> string, leaves: seq<string>, i: nat)
    requires i < |leaves|
    ensures Climb(H, leaves[i], Proof(H, leaves, i)) == Root(H, leaves)
    decreases |leaves|
  {
    if |leaves| > 1 {
      var next := NextLevel(H, leaves);
      Completeness(H, next, i / 2);
      ProofUnfolds(H, leaves, i);
      StepRebuildsPair(leaves, i, i);
      ClimbFirst(H, leaves[i], StepsAt(leaves, i)[0], Proof(H, next, i / 2));
      assert StepsAt(leaves, i) == [StepsAt(leaves, i)[0]];
      assert next[i / 2] == H(Joined(leaves, i / 2));
    }
  }

  // ---------------------------------------------------------------- soundness

  /** Two different strings, one from each set, with one digest. */
  ghost predicate Collision(H: string -> string, A: set<string>, B: set<string>) {
    exists x, y :: x in A && y in B && x != y && H(x) == H(y)
  }

  /** The number of levels above n leaves. */
  function Depth(n: nat): nat {
    if n <= 1 then 0 else 1 + Depth((n + 1) / 2)
  }

  lemma {:induction false} DepthIsCeilLog2(n: nat)
    requires n > 0
    ensures IsCeilLog2(n, Depth(n))
  {
    if n > 1 {
      DepthIsCeilLog2((n + 1) / 2);
    }
  }

  /** The leaf index a position sequence spells; "left" at an odd last node lands on that node. */
  function ProvenIndex(n: nat, proof: seq<ProofStep>): (i: nat)
    requires n > 0 && |proof| == Depth(n)
    ensures i < n
    decreases n
  {
    if n == 1 then 0
    else
      var j := ProvenIndex((n + 1) / 2, proof[1..]);
      if proof[0].position == "right" || 2 * j + 1 == n then 2 * j else 2 * j + 1
  }

  /** The positions of `proof` are those of leaf i among n. */
  predicate Follows(n: nat, i: nat, proof: seq<ProofStep>)
    requires i < n
    decreases n
  {
    if n == 1 then proof == []
    else |proof| > 0 && (proof[0].position == "right" <==> i % 2 == 0) && Follows((n + 1) / 2, i / 2, proof[1..])
  }

  lemma {:induction false} FollowsProvenIndex(n: nat, i: nat, proof: seq<ProofStep>)
    requires i < n && Follows(n, i, proof)
    ensures |proof| == Depth(n) && ProvenIndex(n, proof) == i
    decreases n
  {
    if n > 1 {
      FollowsProvenIndex((n + 1) / 2, i / 2, proof[1..]);
    }
  }

  /** A generated proof carries the positions of its index and has exactly ceil(log2 n) steps. */
  lemma {:induction false} GeneratedProofFollows(H: string -> string, leaves: seq<string>, i: nat)
    requires i < |leaves|
    ensures Follows(|leaves|, i, Proof(H, leaves, i))
    ensures IsCeilLog2(|leaves|, |Proof(H, leaves, i)|)
    decreases |leaves|
  {
    if |leaves| > 1 {
      var next := NextLevel(H, leaves);
      GeneratedProofFollows(H, next, i / 2);
      ProofUnfolds(H, leaves, i);
      assert Proof(H, leaves, i)[1..] == Proof(H, next, i / 2);
    }
    FollowsProvenIndex(|leaves|, i, Proof(H, leaves, i));
    DepthIsCeilLog2(|leaves|);
  }

  lemma CollisionMonotone(H: string -> string, A: set<string>, B: set<string>, A': set<string>, B': set<string>)
    requires A <= A' && B <= B' && Collision(H, A, B)
    ensures Collision(H, A', B')
  {
    var x, y :| x in A && y in B && x != y && H(x) == H(y);
    assert x in A' && y in B';
  }

  lemma SplitJoin(a: string, b: string, c: string, d: string)
    requires a + b == c + d && (|a| == |c| || |b| == |d|)
    ensures a == c && b == d
  {
    assert |a + b| == |c + d|;
    assert a == (a + b)[..|a|] && c == (c + d)[..|c|];
    assert b == (a + b)[|a|..] && d == (c + d)[|c|..];
  }

  /** Two strings hashed to one digest by the tree and by the check are the same, or collide. */
  lemma SameInput(H: string -> string, A: set<string>, B: set<string>, x: string, y: string)
    requires x in A && y in B && H(x) == H(y)
    ensures x == y || Collision(H, A, B)
  {
  }

  lemma ClimbUnfolds(H: string -> string, leaf: string, proof: seq<ProofStep>)
    requires |proof| > 0
    ensures Climb(H, leaf, proof) == Climb(H, H(StepInput(leaf, proof[0])), proof[1..])
    ensures ClimbInputs(H, leaf, proof)
         == {StepInput(leaf, proof[0])} + ClimbInputs(H, H(StepInput(leaf, proof[0])), proof[1..])
  {
  }

  lemma TreeUnfolds(H: string -> string, leaves: seq<string>)
    requires |leaves| > 1
    ensures TreeInputs(H, NextLevel(H, leaves)) <= TreeInputs(H, leaves)
    ensures forall j :: 0 <= j < (|leaves| + 1) / 2 ==> Joined(leaves, j) in TreeInputs(H, leaves)
    ensures Root(H, leaves) == Root(H, NextLevel(H, leaves))
  {
  }

  /** The claimed half of a hashed pair is the child the proof's first position spells. */
  lemma HalfOfPair(leaves: seq<string>, claimed: string, step: ProofStep, j: nat)
    requires AllDigests(leaves) && |claimed| == DIGEST_LENGTH && 2 * j < |leaves|
    requires StepInput(claimed, step) == Joined(leaves, j)
    ensures claimed == leaves[if step.position == "right" || 2 * j + 1 == |leaves| then 2 * j else 2 * j + 1]
  {
    var right := if 2 * j + 1 < |leaves| then leaves[2 * j + 1] else leaves[2 * j];
    if step.position == "right" {
      SplitJoin(claimed, step.hash, leaves[2 * j], right);
    } else {
      SplitJoin(step.hash, claimed, leaves[2 * j], right);
    }
  }

  /** An accepted proof of full length proves the leaf its positions spell, or hands over a
      collision between a string of the tree and a string of the check. The hashes inside the
      proof are unconstrained: only the leaves and the claimed leaf must be digests. */
  lemma {:induction false} Soundness(H: string -> string, leaves: seq<string>, claimed: string, proof: seq<ProofStep>)
    requires FixedLength(H) && AllDigests(leaves) && |claimed| == DIGEST_LENGTH
    requires |leaves| > 0 && |proof| == Depth(|leaves|)
    requires Climb(H, claimed, proof) == Root(H, leaves)
    ensures claimed == leaves[ProvenIndex(|leaves|, proof)]
         || Collision(H, TreeInputs(H, leaves), ClimbInputs(H, claimed, proof))
    decreases |leaves|
  {
    if |leaves| > 1 {
      var next := NextLevel(H, leaves);
      var input := StepInput(claimed, proof[0]);
      ClimbUnfolds(H, claimed, proof);
      TreeUnfolds(H, leaves);
      Soundness(H, next, H(input), proof[1..]);
      SoundnessStep(H, leaves, claimed, proof);
    }
  }

  lemma SoundnessStep(H: string -> string, leaves: seq<string>, claimed: string, proof: seq<ProofStep>)
    requires AllDigests(leaves) && |claimed| == DIGEST_LENGTH
    requires |leaves| > 1 && |proof| == Depth(|leaves|)
    requires var next := NextLevel(H, leaves);
             var parent := H(StepInput(claimed, proof[0]));
             || parent == next[ProvenIndex(|next|, proof[1..])]
             || Collision(H, TreeInputs(H, next), ClimbInputs(H, parent, proof[1..]))
    ensures claimed == leaves[ProvenIndex(|leaves|, proof)]
         || Collision(H, TreeInputs(H, leaves), ClimbInputs(H, claimed, proof))
  {
    var next := NextLevel(H, leaves);
    var input := StepInput(claimed, proof[0]);
    var tree, climb := TreeInputs(H, leaves), ClimbInputs(H, claimed, proof);
    ClimbUnfolds(H, claimed, proof);
    TreeUnfolds(H, leaves);
    if Collision(H, TreeInputs(H, next), ClimbInputs(H, H(input), proof[1..])) {
      CollisionMonotone(H, TreeInputs(H, next), ClimbInputs(H, H(input), proof[1..]), tree, climb);
    } else {
      var j := ProvenIndex(|next|, proof[1..]);
      SameInput(H, tree, climb, Joined(leaves, j), input);
      if Joined(leaves, j) == input {
        HalfOfPair(leaves, claimed, proof[0], j);
      }
    }
  }

  // ---------------------------------------------------------------- proofs for indices out of range

  predicate OutOfRange(n: nat, index: int) {
    index < 0 || index >= n
  }

  /** How many levels pass before an index out of range names a node: the one past the end of an odd
      level, which is paired with itself, or whatever is asked of the single root. */
  function LevelsMissed(n: nat, index: int): nat
    requires n > 0
  {
    if n == 1 || (n % 2 == 1 && index == n) then 0 else 1 + LevelsMissed((n + 1) / 2, index / 2)
  }

  function LevelAt(H: string -> string, leaves: seq<string>, k: nat): (level: seq<string>)
    requires |leaves| > 0
    ensures |level| > 0
    decreases k
  {
    if k == 0 then leaves else LevelAt(H, NextLevel(H, leaves), k - 1)
  }

  function LastNode(H: string -> string, leaves: seq<string>, k: nat): string
    requires |leaves| > 0
  {
    LevelAt(H, leaves, k)[|LevelAt(H, leaves, k)| - 1]
  }

  lemma LastNodeUp(H: string -> string, leaves: seq<string>, k: nat)
    requires |leaves| > 0 && k > 0
    ensures LastNode(H, leaves, k) == LastNode(H, NextLevel(H, leaves), k - 1)
  {
  }

  /** Below the level that is found, an index stays out of range and its proof gains no step. */
  lemma MissedLevel(H: string -> string, leaves: seq<string>, index: int)
    requires |leaves| > 1 && OutOfRange(|leaves|, index) && LevelsMissed(|leaves|, index) > 0
    ensures var next := NextLevel(H, leaves); var k := LevelsMissed(|leaves|, index);
            && OutOfRange(|next|, index / 2) && k == 1 + LevelsMissed(|next|, index / 2)
            && Proof(H, leaves, index) == Proof(H, next, index / 2)
            && LastNode(H, leaves, k) == LastNode(H, next, k - 1)
            && Root(H, leaves) == Root(H, next) && Depth(|leaves|) == 1 + Depth(|next|)
  {
    ProofUnfolds(H, leaves, index);
    assert StepsAt(leaves, index) == [];
    LastNodeUp(H, leaves, LevelsMissed(|leaves|, index));
  }

  /** The proof of the index one past the end of an odd level. */
  lemma PastOddShape(H: string -> string, leaves: seq<string>)
    requires |leaves| > 1 && |leaves| % 2 == 1
    ensures var n := |leaves|; var step := StepsAt(leaves, n)[0]; var rest := Proof(H, NextLevel(H, leaves), n / 2);
            && Proof(H, leaves, n) == [step] + rest && step.position == "left"
            && StepInput(leaves[n - 1], step) == Joined(leaves, n / 2)
            && |rest| == Depth((n + 1) / 2) && ProvenIndex((n + 1) / 2, rest) == n / 2
  {
    var n := |leaves|;
    RestOfPastOdd(H, leaves);
    ProofUnfolds(H, leaves, n);
    StepRebuildsPair(leaves, n - 1, n);
    assert StepsAt(leaves, n) == [StepsAt(leaves, n)[0]];
  }

  lemma RestOfPastOdd(H: string -> string, leaves: seq<string>)
    requires |leaves| > 1 && |leaves| % 2 == 1
    ensures var n := |leaves|; var rest := Proof(H, NextLevel(H, leaves), n / 2);
            |rest| == Depth((n + 1) / 2) && ProvenIndex((n + 1) / 2, rest) == n / 2
  {
    var next := NextLevel(H, leaves);
    GeneratedProofFollows(H, next, |leaves| / 2);
    FollowsProvenIndex(|next|, |leaves| / 2, Proof(H, next, |leaves| / 2));
  }

  /** It is the proof of the last node, but for its first position. */
  lemma PastOddLevel(H: string -> string, leaves: seq<string>)
    requires |leaves| > 1 && |leaves| % 2 == 1
    ensures var n := |leaves|; var proof := Proof(H, leaves, n);
            && |proof| == Depth(n) && ProvenIndex(n, proof) == n - 1
            && Climb(H, leaves[n - 1], proof) == Root(H, leaves)
  {
    var n := |leaves|;
    var next := NextLevel(H, leaves);
    PastOddShape(H, leaves);
    Completeness(H, next, n / 2);
    var step := StepsAt(leaves, n)[0];
    var rest := Proof(H, next, n / 2);
    ClimbFirst(H, leaves[n - 1], step, rest);
    assert ([step] + rest)[1..] == rest;
    assert next[n / 2] == H(Joined(leaves, n / 2));
  }

  /** The two proofs differ, so one leaf has two full proofs. */
  lemma PastOddDiffers(H: string -> string, leaves: seq<string>)
    requires |leaves| > 1 && |leaves| % 2 == 1
    ensures Proof(H, leaves, |leaves|) != Proof(H, leaves, |leaves| - 1)
  {
    var n := |leaves|;
    PastOddShape(H, leaves);
    ProofUnfolds(H, leaves, n - 1);
    assert Proof(H, leaves, n)[0].position == "left" && Proof(H, leaves, n - 1)[0].position == "right";
  }

  /** The proof generated for an index out of range lacks the levels it missed, and climbs to the root
      from the last node above them. */
  lemma {:induction false} PhantomIndex(H: string -> string, leaves: seq<string>, index: int)
    requires |leaves| > 0 && OutOfRange(|leaves|, index)
    ensures var k := LevelsMissed(|leaves|, index);
            && |Proof(H, leaves, index)| + k == Depth(|leaves|)
            && Climb(H, LastNode(H, leaves, k), Proof(H, leaves, index)) == Root(H, leaves)
    decreases |leaves|
  {
    if |leaves| > 1 && LevelsMissed(|leaves|, index) == 0 {
      PastOddLevel(H, leaves);
    } else if |leaves| > 1 {
      MissedLevel(H, leaves, index);
      PhantomIndex(H, NextLevel(H, leaves), index / 2);
    }
  }

  /** It verifies for no other digest, or hands over a collision. */
  lemma {:induction false} PhantomProves(H: string -> string, leaves: seq<string>, index: int, claimed: string)
    requires FixedLength(H) && AllDigests(leaves) && |claimed| == DIGEST_LENGTH
    requires |leaves| > 0 && OutOfRange(|leaves|, index)
    requires Climb(H, claimed, Proof(H, leaves, index)) == Root(H, leaves)
    ensures claimed == LastNode(H, leaves, LevelsMissed(|leaves|, index))
         || Collision(H, TreeInputs(H, leaves), ClimbInputs(H, claimed, Proof(H, leaves, index)))
    decreases |leaves|
  {
    if |leaves| == 1 {
    } else if LevelsMissed(|leaves|, index) == 0 {
      PastOddProves(H, leaves, claimed);
    } else {
      MissedLevel(H, leaves, index);
      PhantomProves(H, NextLevel(H, leaves), index / 2, claimed);
      PhantomUp(H, leaves, index, claimed);
    }
  }

  lemma PhantomUp(H: string -> string, leaves: seq<string>, index: int, claimed: string)
    requires |leaves| > 1 && OutOfRange(|leaves|, index) && LevelsMissed(|leaves|, index) > 0
    requires var next := NextLevel(H, leaves);
             || claimed == LastNode(H, next, LevelsMissed(|next|, index / 2))
             || Collision(H, TreeInputs(H, next), ClimbInputs(H, claimed, Proof(H, next, index / 2)))
    ensures claimed == LastNode(H, leaves, LevelsMissed(|leaves|, index))
         || Collision(H, TreeInputs(H, leaves), ClimbInputs(H, claimed, Proof(H, leaves, index)))
  {
    var next := NextLevel(H, leaves);
    if claimed == LastNode(H, next, LevelsMissed(|next|, index / 2)) {
      SameNode(H, leaves, index);
    } else {
      SameProof(H, leaves, index);
      WiderTree(H, leaves, ClimbInputs(H, claimed, Proof(H, next, index / 2)));
    }
  }

  lemma SameNode(H: string -> string, leaves: seq<string>, index: int)
    requires |leaves| > 1 && OutOfRange(|leaves|, index) && LevelsMissed(|leaves|, index) > 0
    ensures LastNode(H, leaves, LevelsMissed(|leaves|, index))
         == LastNode(H, NextLevel(H, leaves), LevelsMissed(|NextLevel(H, leaves)|, index / 2))
  {
    MissedLevel(H, leaves, index);
  }

  lemma SameProof(H: string -> string, leaves: seq<string>, index: int)
    requires |leaves| > 1 && OutOfRange(|leaves|, index) && LevelsMissed(|leaves|, index) > 0
    ensures Proof(H, leaves, index) == Proof(H, NextLevel(H, leaves), index / 2)
  {
    MissedLevel(H, leaves, index);
  }

  lemma PastOddProves(H: string -> string, leaves: seq<string>, claimed: string)
    requires FixedLength(H) && AllDigests(leaves) && |claimed| == DIGEST_LENGTH
    requires |leaves| > 1 && |leaves| % 2 == 1
    requires Climb(H, claimed, Proof(H, leaves, |leaves|)) == Root(H, leaves)
    ensures claimed == leaves[|leaves| - 1]
         || Collision(H, TreeInputs(H, leaves), ClimbInputs(H, claimed, Proof(H, leaves, |leaves|)))
  {
    PastOddLevel(H, leaves);
    Soundness(H, leaves, claimed, Proof(H, leaves, |leaves|));
  }

  lemma WiderTree(H: string -> string, leaves: seq<string>, inputs: set<string>)
    requires |leaves| > 1
    ensures Collision(H, TreeInputs(H, NextLevel(H, leaves)), inputs) ==> Collision(H, TreeInputs(H, leaves), inputs)
  {
    TreeUnfolds(H, leaves);
    if Collision(H, TreeInputs(H, NextLevel(H, leaves)), inputs) {
      CollisionMonotone(H, TreeInputs(H, NextLevel(H, leaves)), inputs, TreeInputs(H, leaves), inputs);
    }
  }

  /** An index out of range yields a proof of full length that verifies for a leaf exactly when there
      is one leaf, or the index is one past the end of an odd number of leaves. Otherwise
      PhantomProves says what it verifies for: a node above the leaves. */
  lemma PhantomExactly(H: string -> string, leaves: seq<string>, index: int)
    requires |leaves| > 0 && OutOfRange(|leaves|, index)
    ensures var n, proof := |leaves|, Proof(H, leaves, index);
            (|proof| == Depth(n) && exists i :: 0 <= i < n && Climb(H, leaves[i], proof) == Root(H, leaves))
            <==> (n == 1 || (n % 2 == 1 && index == n))
  {
    PhantomIndex(H, leaves, index);
    var n, proof := |leaves|, Proof(H, leaves, index);
    if n == 1 || (n % 2 == 1 && index == n) {
      assert LastNode(H, leaves, 0) == leaves[n - 1];
      assert Climb(H, leaves[n - 1], proof) == Root(H, leaves);
    }
  }

  // ---------------------------------------------------------------- binding

  /** The pair under node j determines both of its children. */
  lemma JoinedBinds(a: seq<string>, b: seq<string>, j: nat)
    requires AllDigests(a) && AllDigests(b) && |a| == |b| && 2 * j < |a|
    requires Joined(a, j) == Joined(b, j)
    ensures a[2 * j] == b[2 * j] && (2 * j + 1 < |a| ==> a[2 * j + 1] == b[2 * j + 1])
  {
    var ra := if 2 * j + 1 < |a| then a[2 * j + 1] else a[2 * j];
    var rb := if 2 * j + 1 < |b| then b[2 * j + 1] else b[2 * j];
    SplitJoin(a[2 * j], ra, b[2 * j], rb);
  }

  /** Two lists of equally many digests with one root are equal, or their trees collide. */
  lemma {:induction false} RootBinding(H: string -> string, a: seq<string>, b: seq<string>)
    requires FixedLength(H) && AllDigests(a) && AllDigests(b)
    requires |a| == |b| && Root(H, a) == Root(H, b)
    ensures a == b || Collision(H, TreeInputs(H, a), TreeInputs(H, b))
    decreases |a|
  {
    if |a| > 1 {
      var na, nb := NextLevel(H, a), NextLevel(H, b);
      RootBinding(H, na, nb);
      if Collision(H, TreeInputs(H, na), TreeInputs(H, nb)) {
        CollisionMonotone(H, TreeInputs(H, na), TreeInputs(H, nb), TreeInputs(H, a), TreeInputs(H, b));
      } else if !Collision(H, TreeInputs(H, a), TreeInputs(H, b)) {
        assert na == nb;
        forall i | 0 <= i < |a| ensures a[i] == b[i] {
          PairsAgree(H, a, b, i / 2);
          assert i == 2 * (i / 2) || i == 2 * (i / 2) + 1;
        }
      }
    }
  }

  lemma PairsAgree(H: string -> string, a: seq<string>, b: seq<string>, j: nat)
    requires AllDigests(a) && AllDigests(b) && |a| == |b| > 1 && j < (|a| + 1) / 2
    requires NextLevel(H, a) == NextLevel(H, b)
    requires !Collision(H, TreeInputs(H, a), TreeInputs(H, b))
    ensures a[2 * j] == b[2 * j] && (2 * j + 1 < |a| ==> a[2 * j + 1] == b[2 * j + 1])
  {
    assert NextLevel(H, a)[j] == NextLevel(H, b)[j];
    assert Joined(a, j) in TreeInputs(H, a) && Joined(b, j) in TreeInputs(H, b);
    JoinedBinds(a, b, j);
  }

  /** Why equal length is needed: repeating the last leaf of an odd list of three or more never
      changes the root. */
  lemma OddDuplication(H: string -> string, a: seq<string>)
    requires |a| >= 3 && |a| % 2 == 1
    ensures Root(H, a + [a[|a| - 1]]) == Root(H, a)
  {
    var b := a + [a[|a| - 1]];
    SameNextLevel(H, a, b);
    assert Root(H, a) == Root(H, NextLevel(H, a));
    assert Root(H, b) == Root(H, NextLevel(H, b));
  }

  /** Why a claimed leaf must be a digest: the two halves of a hashed pair are not delimited, so any
      other cut of the same string climbs to the same root. */
  lemma ClaimLengthNeeded(H: string -> string, a: string, b: string, cut: nat)
    requires cut <= |a|
    ensures Climb(H, a[..cut], [ProofStep(a[cut..] + b, "right")]) == Root(H, [a, b])
  {
    assert a[..cut] + (a[cut..] + b) == a + b;
    assert NextLevel(H, [a, b]) == [H(a + b)];
    assert Root(H, [a, b]) == Root(H, [H(a + b)]);
  }

  lemma SameNextLevel(H: string -> string, a: seq<string>, b: seq<string>)
    requires |a| % 2 == 1 && b == a + [a[|a| - 1]]
    ensures NextLevel(H, a) == NextLevel(H, b)
  {
    var na, nb := NextLevel(H, a), NextLevel(H, b);
    forall j | 0 <= j < |na| ensures na[j] == nb[j] {
      assert 2 * j + 1 < |a| || 2 * j == |a| - 1;
      assert Joined(a, j) == Joined(b, j);
    }
  }
}
