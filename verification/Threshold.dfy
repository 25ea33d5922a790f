/** Threshold-encrypted files: splitting the file key, placing one share with each holder, and the
    recipient's collection loop (backend/strategies/threshold.py:50-84,
    backend/api/routes.py:963-1022,1885-1920,1943-2026, backend/storage/db.py:497-519).

    Shamir's scheme and the sealed boxes are library parameters under contracts. */
module Threshold {
  import opened Seqs
  import P = Polynomial

  const KEY_SIZE := 32

  datatype Share = Share(index: int, payload: Bytes)

  /** Shamir.split (with the random coins it draws) and Shamir.combine, where None is an exception. */
  datatype Scheme = Scheme(split: (nat, nat, Bytes, nat) -> seq<Share>, combine: seq<Share> -> Option<Bytes>)

  predicate DistinctIndices(shares: seq<Share>) {
    forall i, j :: 0 <= i < j < |shares| ==> shares[i].index != shares[j].index
  }

  function Pick(shares: seq<Share>, at: seq<nat>): seq<Share>
    requires forall i :: 0 <= i < |at| ==> at[i] < |shares|
  {
    seq(|at|, i requires 0 <= i < |at| => shares[at[i]])
  }

  predicate Positions(at: seq<nat>, m: nat, n: nat) {
    |at| == m && Distinct(at) && forall i :: 0 <= i < |at| ==> at[i] < n
  }

  predicate Numbered(shares: seq<Share>, n: nat) {
    |shares| == n && forall i :: 0 <= i < |shares| ==> shares[i].index == i + 1 && |shares[i].payload| == 16
  }

  ghost predicate Combines(s: Scheme, shares: seq<Share>, m: nat, secret: Bytes) {
    forall at: seq<nat> :: Positions(at, m, |shares|) ==> s.combine(Pick(shares, at)) == Some(secret)
  }

  /** Any m of the n shares of a 16-byte secret give it back; a repeated index is refused. */
  ghost predicate Contract(s: Scheme) {
    && (forall m: nat, n: nat, secret: Bytes, coin: nat :: 1 <= m <= n <= 254 && |secret| == 16 ==>
          Numbered(s.split(m, n, secret, coin), n) && Combines(s, s.split(m, n, secret, coin), m, secret))
    && (forall shares: seq<Share> :: !DistinctIndices(shares) ==> s.combine(shares) == None)
  }

  // ---------------------------------------------------------------- split_key, combine_key

  predicate SameIndices(low: seq<Share>, high: seq<Share>) {
    forall i :: 0 <= i < |low| && i < |high| ==> low[i].index == high[i].index
  }

  function Packed(low: seq<Share>, high: seq<Share>): seq<Share> {
    seq(if |low| <= |high| then |low| else |high|,
        i requires 0 <= i < |low| && i < |high| => Share(low[i].index, low[i].payload + high[i].payload))
  }

  /** Both 16-byte halves are split on their own and packed under one index. */
  method SplitKey(s: Scheme, key: Bytes, m: nat, n: nat, coinLow: nat, coinHigh: nat) returns (r: Result<seq<Share>>)
    ensures r.Err? <==> !(1 <= m <= n <= 254) || |key| != KEY_SIZE
                        || !SameIndices(s.split(m, n, key[..16], coinLow), s.split(m, n, key[16..], coinHigh))
    ensures r.Ok? ==> r.value == Packed(s.split(m, n, key[..16], coinLow), s.split(m, n, key[16..], coinHigh))
  {
    if !(1 <= m <= n <= 254) {
      return Err("invalid (m, n)");
    }
    if |key| != KEY_SIZE {
      return Err("bad key size");
    }
    var low := s.split(m, n, key[..16], coinLow);
    var high := s.split(m, n, key[16..], coinHigh);
    var packed: seq<Share> := [];
    var i := 0;
    while i < |low| && i < |high|
      invariant 0 <= i <= |low| && i <= |high|
      invariant packed == Packed(low[..i], high[..i]) && SameIndices(low[..i], high[..i])
    {
      if low[i].index != high[i].index {
        assert !SameIndices(low, high);
        return Err("index mismatch");
      }
      packed := packed + [Share(low[i].index, low[i].payload + high[i].payload)];
      i := i + 1;
    }
    assert low[..i] == low || high[..i] == high;
    assert packed == Packed(low, high);
    return Ok(packed);
  }

  function Low(shares: seq<Share>): seq<Share> {
    seq(|shares|, i requires 0 <= i < |shares| =>
      Share(shares[i].index, if |shares[i].payload| >= 16 then shares[i].payload[..16] else shares[i].payload))
  }

  function High(shares: seq<Share>): seq<Share> {
    seq(|shares|, i requires 0 <= i < |shares| =>
      Share(shares[i].index, if |shares[i].payload| >= 16 then shares[i].payload[16..] else []))
  }

  function CombineKey(s: Scheme, shares: seq<Share>): Result<Bytes> {
    if |shares| == 0 then Err("no shares")
    else
      var low, high := s.combine(Low(shares)), s.combine(High(shares));
      if low.None? || high.None? then Err("combine failed") else Ok(low.value + high.value)
  }

  /** The shares `SplitKey` makes of `key`. */
  ghost predicate SharesOf(s: Scheme, key: Bytes, m: nat, n: nat, shares: seq<Share>) {
    && 1 <= m <= n <= 254 && |key| == KEY_SIZE
    && exists coinLow: nat, coinHigh: nat :: shares == Split(s, key, m, n, coinLow, coinHigh)
  }

  function Split(s: Scheme, key: Bytes, m: nat, n: nat, coinLow: nat, coinHigh: nat): seq<Share>
    requires |key| == KEY_SIZE
  {
    Packed(s.split(m, n, key[..16], coinLow), s.split(m, n, key[16..], coinHigh))
  }

  lemma SharesNumbered(s: Scheme, key: Bytes, m: nat, n: nat, shares: seq<Share>)
    requires Contract(s) && SharesOf(s, key, m, n, shares)
    ensures |shares| == n && forall i :: 0 <= i < n ==> shares[i].index == i + 1
  {
    var coinLow: nat, coinHigh: nat :| shares == Split(s, key, m, n, coinLow, coinHigh);
    assert Numbered(s.split(m, n, key[..16], coinLow), n) && Numbered(s.split(m, n, key[16..], coinHigh), n);
  }

  /** Any m packed shares of distinct position, in any order, give back the exact key. */
  lemma AnyMSharesCombine(s: Scheme, key: Bytes, m: nat, n: nat, shares: seq<Share>, at: seq<nat>)
    requires Contract(s) && SharesOf(s, key, m, n, shares) && Positions(at, m, n)
    ensures |shares| == n && CombineKey(s, Pick(shares, at)) == Ok(key)
  {
    SharesNumbered(s, key, m, n, shares);
    var coinLow: nat, coinHigh: nat :| shares == Split(s, key, m, n, coinLow, coinHigh);
    var low, high := s.split(m, n, key[..16], coinLow), s.split(m, n, key[16..], coinHigh);
    assert Numbered(low, n) && Combines(s, low, m, key[..16]);
    assert Numbered(high, n) && Combines(s, high, m, key[16..]);
    assert Low(Pick(shares, at)) == Pick(low, at);
    assert High(Pick(shares, at)) == Pick(high, at);
    assert key[..16] + key[16..] == key;
  }

  lemma RepeatedShareRefused(s: Scheme, shares: seq<Share>)
    requires Contract(s) && !DistinctIndices(shares)
    ensures CombineKey(s, shares).Err?
  {
    assert !DistinctIndices(Low(shares)) by {
      var i, j :| 0 <= i < j < |shares| && shares[i].index == shares[j].index;
      assert Low(shares)[i].index == Low(shares)[j].index;
    }
  }

  // ---------------------------------------------------------------- the collection loop

  /** The shares of the first m positions that answer. */
  function FirstAnswers(answers: seq<Option<Share>>, m: int): seq<Share> {
    if |answers| == 0 || m <= 0 then []
    else if answers[0].Some? then [answers[0].value] + FirstAnswers(answers[1..], m - 1)
    else FirstAnswers(answers[1..], m)
  }

  /** How many positions the loop goes through. */
  function Visited(answers: seq<Option<Share>>, m: int): (n: nat)
    ensures n <= |answers|
  {
    if |answers| == 0 || m <= 0 then 0
    else 1 + Visited(answers[1..], if answers[0].Some? then m - 1 else m)
  }

  function Recovered(s: Scheme, collected: seq<Share>, m: int): Result<Bytes> {
    if |collected| < m then Err("threshold not met") else CombineKey(s, collected)
  }

  /** A released share, still sealed for the requester. */
  datatype Release = Release(shareIndex: int, wrapped: Bytes)

  /** What position i contributes: nothing unless the holder is alive, releases and the box opens. */
  function AnswerAt(holders: seq<string>, alive: set<string>, replies: seq<Option<Release>>,
                    open: Bytes -> Option<Bytes>, i: nat): Option<Share>
    requires i < |holders| == |replies|
  {
    if holders[i] !in alive || replies[i].None? || open(replies[i].value.wrapped).None? then None
    else Some(Share(replies[i].value.shareIndex, open(replies[i].value.wrapped).value))
  }

  function AllAnswers(holders: seq<string>, alive: set<string>, replies: seq<Option<Release>>,
                      open: Bytes -> Option<Bytes>): seq<Option<Share>>
    requires |holders| == |replies|
  {
    seq(|holders|, i requires 0 <= i < |holders| => AnswerAt(holders, alive, replies, open, i))
  }

  /** The alive holders among the first n, which are the ones contacted. */
  function AliveUpTo(holders: seq<string>, alive: set<string>, n: nat): seq<string>
    requires n <= |holders|
  {
    if n == 0 then [] else AliveUpTo(holders, alive, n - 1) + if holders[n - 1] in alive then [holders[n - 1]] else []
  }

  /** `replies[i]` is what holder i would release when asked, None for any failure of the request. */
  method CollectAndCombine(s: Scheme, holders: seq<string>, m: int, alive: set<string>, replies: seq<Option<Release>>,
                           open: Bytes -> Option<Bytes>)
    returns (r: Result<Bytes>, contacted: seq<string>)
    requires |holders| == |replies|
    ensures var answers := AllAnswers(holders, alive, replies, open);
            && r == Recovered(s, FirstAnswers(answers, m), m)
            && contacted == AliveUpTo(holders, alive, Visited(answers, m))
  {
    ghost var answers := AllAnswers(holders, alive, replies, open);
    var collected: seq<Share> := [];
    contacted := [];
    var i := 0;
    assert answers[0..] == answers;
    while i < |holders|
      invariant 0 <= i <= |holders|
      invariant |collected| <= m || |collected| == 0
      invariant FirstAnswers(answers, m) == collected + FirstAnswers(answers[i..], m - |collected|)
      invariant Visited(answers, m) == i + Visited(answers[i..], m - |collected|)
      invariant contacted == AliveUpTo(holders, alive, i)
    {
      if |collected| >= m {
        break;
      }
      assert answers[i..][1..] == answers[i + 1..];
      assert answers[i] == AnswerAt(holders, alive, replies, open, i);
      if holders[i] in alive {
        contacted := contacted + [holders[i]];
        if replies[i].Some? {
          var share := open(replies[i].value.wrapped);
          if share.Some? {
            collected := collected + [Share(replies[i].value.shareIndex, share.value)];
          }
        }
      }
      i := i + 1;
    }
    assert FirstAnswers(answers[i..], m - |collected|) == [];
    assert FirstAnswers(answers, m) == collected;
    if |collected| < m {
      return Err("threshold not met"), contacted;
    }
    r := CombineKey(s, collected);
  }

  /** The positions that answer, in order. */
  function Answering(answers: seq<Option<Share>>, n: nat): seq<nat>
    requires n <= |answers|
  {
    if n == 0 then [] else Answering(answers, n - 1) + if answers[n - 1].Some? then [n - 1] else []
  }

  lemma {:induction false} AnsweringIsAnswering(answers: seq<Option<Share>>, n: nat)
    requires n <= |answers|
    ensures forall i: nat :: i in Answering(answers, n) <==> i < n && answers[i].Some?
    ensures forall a, b :: 0 <= a < b < |Answering(answers, n)| ==> Answering(answers, n)[a] < Answering(answers, n)[b]
    ensures forall a :: 0 <= a < |Answering(answers, n)| ==> Answering(answers, n)[a] < n && answers[Answering(answers, n)[a]].Some?
  {
    if n > 0 {
      AnsweringIsAnswering(answers, n - 1);
    }
  }

  /** The loop collects exactly the shares of the first m answering positions. */
  function FirstPositions(answers: seq<Option<Share>>, m: nat): (at: seq<nat>)
    ensures |at| <= m
  {
    var all := Answering(answers, |answers|);
    if |all| > m then all[..m] else all
  }

  function At(answers: seq<Option<Share>>, at: seq<nat>): seq<Share>
    requires Answered(answers, at)
  {
    seq(|at|, a requires 0 <= a < |at| => answers[at[a]].value)
  }

  function Shifted(at: seq<nat>): seq<nat> {
    seq(|at|, a requires 0 <= a < |at| => at[a] + 1)
  }

  lemma {:induction false} AnsweringHead(answers: seq<Option<Share>>, n: nat)
    requires 0 < n <= |answers|
    ensures Answering(answers, n) == (if answers[0].Some? then [0] else []) + Shifted(Answering(answers[1..], n - 1))
  {
    if n > 1 {
      AnsweringHead(answers, n - 1);
      assert answers[1..][n - 2] == answers[n - 1];
    } else {
      assert Answering(answers, 0) == [] && Answering(answers[1..], 0) == [];
    }
  }

  lemma ShiftedTake(at: seq<nat>, m: nat)
    requires m <= |at|
    ensures Shifted(at[..m]) == Shifted(at)[..m]
  {
  }

  lemma PositionsHead(answers: seq<Option<Share>>, m: nat)
    requires |answers| > 0 && m > 0
    ensures FirstPositions(answers, m) ==
            if answers[0].Some? then [0] + Shifted(FirstPositions(answers[1..], m - 1))
            else Shifted(FirstPositions(answers[1..], m))
  {
    AnsweringHead(answers, |answers|);
    var rest := Answering(answers[1..], |answers| - 1);
    var tail := FirstPositions(answers[1..], if answers[0].Some? then m - 1 else m);
    assert |answers[1..]| == |answers| - 1 && tail == rest[..|tail|];
    ShiftedTake(rest, |tail|);
    if answers[0].Some? {
      assert ([0] + Shifted(rest))[..1 + |tail|] == [0] + Shifted(rest)[..|tail|];
    } else {
      assert [] + Shifted(rest) == Shifted(rest);
    }
  }

  predicate Answered(answers: seq<Option<Share>>, at: seq<nat>) {
    forall a :: 0 <= a < |at| ==> at[a] < |answers| && answers[at[a]].Some?
  }

  lemma ShiftedAt(answers: seq<Option<Share>>, at: seq<nat>)
    requires |answers| > 0 && Answered(answers[1..], at)
    ensures Answered(answers, Shifted(at)) && At(answers, Shifted(at)) == At(answers[1..], at)
  {
  }

  lemma ConsAt(answers: seq<Option<Share>>, at: seq<nat>)
    requires |answers| > 0 && answers[0].Some? && Answered(answers, at)
    ensures Answered(answers, [0] + at) && At(answers, [0] + at) == [answers[0].value] + At(answers, at)
  {
  }

  lemma {:induction false} CollectsFirst(answers: seq<Option<Share>>, m: nat)
    ensures Answered(answers, FirstPositions(answers, m))
    ensures FirstAnswers(answers, m) == At(answers, FirstPositions(answers, m))
    decreases |answers|
  {
    if |answers| == 0 || m == 0 {
      assert FirstPositions(answers, m) == [];
    } else {
      var rest := if answers[0].Some? then m - 1 else m;
      CollectsFirst(answers[1..], rest);
      PositionsHead(answers, m);
      var tail := FirstPositions(answers[1..], rest);
      ShiftedAt(answers, tail);
      if answers[0].Some? {
        ConsAt(answers, Shifted(tail));
      }
    }
  }

  /** The loop stops right after the m-th success: the positions it went through hold exactly the
      collected answers, and the last of them is a success. */
  lemma {:induction false} StopsAtThreshold(answers: seq<Option<Share>>, m: nat)
    requires |FirstAnswers(answers, m)| == m > 0
    ensures var n := Visited(answers, m);
            && n > 0 && answers[n - 1].Some?
            && |Answering(answers, n)| == m
    decreases |answers|
  {
    var rest := if answers[0].Some? then m - 1 else m;
    var n := Visited(answers, m);
    assert n == 1 + Visited(answers[1..], rest);
    if rest > 0 {
      StopsAtThreshold(answers[1..], rest);
      assert answers[1..][n - 2] == answers[n - 1];
    } else {
      assert n == 1;
    }
    AnsweringHead(answers, n);
  }

  // ---------------------------------------------------------------- exact recovery

  /** Every answer is one of the uploader's shares, placed with the holder that gave it, and a holder
      always gives the same one. */
  ghost predicate Genuine(holders: seq<string>, shares: seq<Share>, answers: seq<Option<Share>>) {
    && |holders| == |shares| == |answers|
    && (forall p :: 0 <= p < |answers| && answers[p].Some? ==>
          exists q :: 0 <= q < |holders| && holders[q] == holders[p] && answers[p].value == shares[q])
    && (forall p, q :: 0 <= p < q < |answers| && answers[p].Some? && answers[q].Some? && holders[p] == holders[q] ==>
          answers[p] == answers[q])
  }

  predicate DistinctHolders(holders: seq<string>, at: seq<nat>)
    requires forall a :: 0 <= a < |at| ==> at[a] < |holders|
  {
    forall a, b :: 0 <= a < b < |at| ==> holders[at[a]] != holders[at[b]]
  }

  lemma Sources(holders: seq<string>, shares: seq<Share>, answers: seq<Option<Share>>, at: seq<nat>) returns (from: seq<nat>)
    requires Genuine(holders, shares, answers)
    requires Answered(answers, at)
    ensures |from| == |at| && forall a :: 0 <= a < |at| ==> from[a] < |shares| && holders[from[a]] == holders[at[a]]
    ensures At(answers, at) == Pick(shares, from)
  {
    from := [];
    for a := 0 to |at|
      invariant |from| == a
      invariant forall b :: 0 <= b < a ==> from[b] < |shares| && holders[from[b]] == holders[at[b]] && answers[at[b]].value == shares[from[b]]
    {
      var q: nat :| q < |holders| && holders[q] == holders[at[a]] && answers[at[a]].value == shares[q];
      from := from + [q];
    }
  }

  /** The recipient gets the uploader's exact key if and only if at least m positions answer and the
      first m of them belong to different holders. */
  lemma RecoveryIsExact(s: Scheme, key: Bytes, m: nat, n: nat, holders: seq<string>, shares: seq<Share>, answers: seq<Option<Share>>)
    requires Contract(s) && SharesOf(s, key, m, n, shares) && Genuine(holders, shares, answers)
    ensures var at, r := FirstPositions(answers, m), Recovered(s, FirstAnswers(answers, m), m);
            && (forall a :: 0 <= a < |at| ==> at[a] < |holders|)
            && (r == Ok(key) <==> |at| == m && DistinctHolders(holders, at))
            && (r.Ok? ==> r.value == key)
  {
    var at := FirstPositions(answers, m);
    CollectsFirst(answers, m);
    SharesNumbered(s, key, m, n, shares);
    var from := Sources(holders, shares, answers, at);
    if |at| == m {
      if DistinctHolders(holders, at) {
        assert Positions(from, m, n);
        AnyMSharesCombine(s, key, m, n, shares, from);
      } else {
        var a, b :| 0 <= a < b < |at| && holders[at[a]] == holders[at[b]];
        SameAnswerTwice(holders, shares, answers, at, a, b);
        RepeatedShareRefused(s, At(answers, at));
      }
    }
  }

  lemma SameAnswerTwice(holders: seq<string>, shares: seq<Share>, answers: seq<Option<Share>>, at: seq<nat>, a: nat, b: nat)
    requires Genuine(holders, shares, answers) && a < b < |at| && at == FirstPositions(answers, |at|)
    requires Answered(answers, at)
    requires holders[at[a]] == holders[at[b]]
    ensures !DistinctIndices(At(answers, at))
  {
    AnsweringIsAnswering(answers, |answers|);
    assert answers[at[a]] == answers[at[b]];
    assert At(answers, at)[a].index == At(answers, at)[b].index;
  }

  lemma AnsweringCount(answers: seq<Option<Share>>)
    ensures |Answering(answers, |answers|)| == |set i: nat | i < |answers| && answers[i].Some?|
  {
    var answering := set i: nat | i < |answers| && answers[i].Some?;
    var all := Answering(answers, |answers|);
    AnsweringIsAnswering(answers, |answers|);
    assert ToSet(all) == answering;
    DistinctSize(all);
  }

  /** A key is only ever combined from m shares of distinct index, the last one answered by the last
      position visited. */
  lemma RecoveredFromM(s: Scheme, answers: seq<Option<Share>>, m: nat)
    requires Contract(s) && m > 0 && Recovered(s, FirstAnswers(answers, m), m).Ok?
    ensures var collected, visited := FirstAnswers(answers, m), Visited(answers, m);
            && |collected| == m && DistinctIndices(collected)
            && visited > 0 && answers[visited - 1].Some? && |Answering(answers, visited)| == m
  {
    CollectsFirst(answers, m);
    if !DistinctIndices(FirstAnswers(answers, m)) {
      RepeatedShareRefused(s, FirstAnswers(answers, m));
    }
    StopsAtThreshold(answers, m);
  }

  /** With distinct holders the condition is just that m of the n answer; the m indices used are distinct
      and nobody is contacted after the m-th success. */
  lemma DistinctHoldersQuorum(s: Scheme, key: Bytes, m: nat, n: nat, holders: seq<string>, shares: seq<Share>, answers: seq<Option<Share>>)
    requires Contract(s) && SharesOf(s, key, m, n, shares) && Genuine(holders, shares, answers) && Distinct(holders)
    ensures var answering := set i: nat | i < |answers| && answers[i].Some?;
            var r, visited := Recovered(s, FirstAnswers(answers, m), m), Visited(answers, m);
            && (r == Ok(key) <==> |answering| >= m)
            && (r.Err? <==> |answering| < m)
            && (r.Ok? ==>
                && |FirstAnswers(answers, m)| == m && DistinctIndices(FirstAnswers(answers, m))
                && visited > 0 && answers[visited - 1].Some? && |Answering(answers, visited)| == m)
  {
    AnsweringCount(answers);
    assert DistinctHolders(holders, FirstPositions(answers, m)) && Answered(answers, FirstPositions(answers, m)) by {
      CollectsFirst(answers, m);
      FirstIncreasing(answers, m);
    }
    RecoveryIsExact(s, key, m, n, holders, shares, answers);
    if Recovered(s, FirstAnswers(answers, m), m).Ok? {
      RecoveredFromM(s, answers, m);
    }
  }

  lemma FirstIncreasing(answers: seq<Option<Share>>, m: nat)
    ensures var at := FirstPositions(answers, m); forall a, b :: 0 <= a < b < |at| ==> at[a] < at[b]
  {
    AnsweringIsAnswering(answers, |answers|);
  }

  // ---------------------------------------------------------------- the contract can be met

  /** The coefficients: the secret, then m - 1 blocks taken from the coin. */
  function Blocks(m: nat, secret: Bytes, coin: nat): (blocks: seq<Bytes>)
    requires m > 0 && |secret| == 16
    ensures P.Uniform(blocks, m, 16) && blocks[0] == secret
  {
    [secret] + seq(m - 1, i => seq(16, j => coin))
  }

  function PolynomialShares(m: nat, n: nat, secret: Bytes, coin: nat): seq<Share> {
    if m > 0 && |secret| == 16
    then seq(n, i requires 0 <= i < n => Share(i + 1, P.ShardAt(Blocks(m, secret, coin), 16, i + 1)))
    else []
  }

  predicate Explains(blocks: seq<Bytes>, shares: seq<Share>) {
    && P.Uniform(blocks, |shares|, 16) && |shares| > 0
    && forall i :: 0 <= i < |shares| ==> shares[i].payload == P.ShardAt(blocks, 16, shares[i].index)
  }

  ghost function PolynomialCombine(shares: seq<Share>): Option<Bytes> {
    if DistinctIndices(shares) && exists blocks :: Explains(blocks, shares)
    then var blocks :| Explains(blocks, shares); Some(blocks[0])
    else None
  }

  ghost function PolynomialScheme(): Scheme {
    Scheme((m: nat, n: nat, secret: Bytes, coin: nat) => PolynomialShares(m, n, secret, coin),
           (shares: seq<Share>) => PolynomialCombine(shares))
  }

  /** Polynomial evaluation, the secret being the constant coefficient, meets the contract. */
  lemma ContractIsMet()
    ensures Contract(PolynomialScheme())
  {
    var s := PolynomialScheme();
    forall m: nat, n: nat, secret: Bytes, coin: nat | 1 <= m <= n <= 254 && |secret| == 16
      ensures Numbered(s.split(m, n, secret, coin), n) && Combines(s, s.split(m, n, secret, coin), m, secret)
    {
      var shares := PolynomialShares(m, n, secret, coin);
      assert s.split(m, n, secret, coin) == shares;
      forall i | 0 <= i < n ensures shares[i].index == i + 1 && |shares[i].payload| == 16 {
        assert |P.ShardAt(Blocks(m, secret, coin), 16, i + 1)| == 16;
      }
      forall at: seq<nat> | Positions(at, m, |shares|) ensures s.combine(Pick(shares, at)) == Some(secret) {
        PolynomialRecovers(m, n, secret, coin, at);
      }
    }
  }

  function Points(shares: seq<Share>): seq<int> {
    seq(|shares|, i requires 0 <= i < |shares| => shares[i].index)
  }

  /** Blocks that explain the same shares are the same. */
  lemma ExplanationUnique(a: seq<Bytes>, b: seq<Bytes>, shares: seq<Share>)
    requires DistinctIndices(shares) && Explains(a, shares) && Explains(b, shares)
    ensures a == b
  {
    var points := Points(shares);
    forall i | 0 <= i < |points| ensures P.ShardAt(a, 16, points[i]) == P.ShardAt(b, 16, points[i]) {
      assert shares[i].payload == P.ShardAt(a, 16, points[i]);
    }
    P.ShardsDetermineBlocks(a, b, 16, points);
  }

  lemma PolynomialRecovers(m: nat, n: nat, secret: Bytes, coin: nat, at: seq<nat>)
    requires 1 <= m <= n && |secret| == 16 && Positions(at, m, n)
    ensures PolynomialCombine(Pick(PolynomialShares(m, n, secret, coin), at)) == Some(secret)
  {
    var picked := Pick(PolynomialShares(m, n, secret, coin), at);
    var blocks := Blocks(m, secret, coin);
    assert Explains(blocks, picked);
    assert DistinctIndices(picked);
    var found :| Explains(found, picked) && PolynomialCombine(picked) == Some(found[0]);
    ExplanationUnique(found, blocks, picked);
  }
}
