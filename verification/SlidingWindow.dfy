/** The sliding-window sender (backend/strategies/sliding_window.py:49-229): three tasks (initial fill,
    ACK listener, retransmission sweep) over one window, against a channel that may lose, duplicate
    and reorder, and a receiver that stores a chunk before it acknowledges it. */
module SlidingWindow {
  import opened Seqs

  const MAX_RETRIES: nat := 5

  /** The chunk indices handed to send_all, and the window size. */
  datatype Transfer = Transfer(indices: seq<int>, window: nat)

  /** Filling: at the head of the fill loop. Pushing: a chunk is in the window and written to the
      connection, but the drain is still awaited, so it may already be stored and acknowledged.
      Waiting: the fill loop has ended. Returned: send_all has returned. Failed: a send raised. */
  datatype Phase = Filling | Pushing | Waiting | Returned | Failed

  /** `transmitted` counts the sends of each index, `failed` the retransmissions whose send raised; `stored`
      is the receiver's disk. */
  datatype State = State(
    unacked: set<int>,
    acked: set<int>,
    retries: map<int, nat>,
    sendIdx: nat,
    phase: Phase,
    timedOut: seq<int>,
    lost: bool,
    done: bool,
    transmitted: map<int, nat>,
    failed: map<int, nat>,
    stored: set<int>)

  datatype Action =
    | Push
    | Pushed
    | PushFails
    | FillEnds
    | Store(index: int)
    | Ack(index: int)
    | Lose
    | Scan(expired: seq<int>)
    | Retransmit
    | RetransmitFails
    | Return

  const Start := State({}, {}, map[], 0, Filling, [], false, false, map[], map[], {})

  function Count(m: map<int, nat>, i: int): nat {
    if i in m then m[i] else 0
  }

  predicate FillGuard(t: Transfer, s: State) {
    s.sendIdx < |t.indices| && |s.unacked| < t.window
  }

  /** The listener and the sweep live until send_all returns or raises. */
  predicate Running(s: State) {
    !s.phase.Returned? && !s.phase.Failed?
  }

  predicate Enabled(t: Transfer, s: State, a: Action) {
    match a
    case Push => s.phase.Filling? && FillGuard(t, s)
    case Pushed => s.phase.Pushing? && s.sendIdx < |t.indices|
    case PushFails => s.phase.Pushing?
    case FillEnds => s.phase.Filling? && !FillGuard(t, s)
    case Store(i) => i in s.transmitted
    case Ack(i) => Running(s) && i in s.stored && !s.lost && |s.acked| < |t.indices|
    case Lose => Running(s)
    case Scan(expired) => Running(s) && s.timedOut == [] && forall i :: i in expired ==> i in s.unacked
    case Retransmit => Running(s) && s.timedOut != []
    case RetransmitFails => Running(s) && s.timedOut != [] && Count(s.retries, s.timedOut[0]) < MAX_RETRIES
    case Return => s.phase.Waiting? && (s.done || |t.indices| == 0)
  }

  /** `_handle_ack`: out of the window, into the acknowledged set, done when all are acknowledged. */
  function Acknowledged(t: Transfer, s: State, i: int): State {
    s.(unacked := s.unacked - {i}, acked := s.acked + {i}, done := s.done || |s.acked + {i}| >= |t.indices|)
  }

  /** One turn of the sweep over the chunks it found expired: the retry is counted first, and then the chunk
      is sent, or its send raises. */
  function Swept(s: State, sent: bool): State
    requires s.timedOut != []
  {
    var i := s.timedOut[0];
    var next := s.(timedOut := s.timedOut[1..]);
    if Count(s.retries, i) >= MAX_RETRIES then next
    else
      var counted := next.(retries := s.retries[i := Count(s.retries, i) + 1]);
      if sent then counted.(transmitted := s.transmitted[i := Count(s.transmitted, i) + 1])
      else counted.(failed := s.failed[i := Count(s.failed, i) + 1])
  }

  function Step(t: Transfer, s: State, a: Action): State
    requires Enabled(t, s, a)
  {
    match a
    case Push =>
      var i := t.indices[s.sendIdx];
      s.(phase := Pushing, unacked := s.unacked + {i}, retries := s.retries[i := 0],
         transmitted := s.transmitted[i := Count(s.transmitted, i) + 1])
    case Pushed => s.(phase := Filling, sendIdx := s.sendIdx + 1)
    case PushFails => s.(phase := Failed)
    case FillEnds => s.(phase := Waiting)
    case Store(i) => s.(stored := s.stored + {i})
    case Ack(i) => Acknowledged(t, s, i)
    case Lose => s.(lost := true, done := true)
    case Scan(expired) => s.(timedOut := expired)
    case Retransmit => Swept(s, true)
    case RetransmitFails => Swept(s, false)
    case Return => s.(phase := Returned)
  }

  function After(t: Transfer, s: State, acts: seq<Action>): Option<State>
    decreases |acts|
  {
    if |acts| == 0 then Some(s)
    else if Enabled(t, s, acts[0]) then After(t, Step(t, s, acts[0]), acts[1..])
    else None
  }

  /** The window bookkeeping as the sender object keeps it. */
  class Window {
    var unacked: set<int>
    var acked: set<int>
    var done: bool
    const total: nat

    constructor (total: nat)
      ensures unacked == {} && acked == {} && !done && this.total == total
    {
      unacked, acked, done := {}, {}, false;
      this.total := total;
    }

    method HandleAck(index: int)
      modifies this
      ensures unacked == old(unacked) - {index}
      ensures acked == old(acked) + {index}
      ensures done == (old(done) || |acked| >= total)
    {
      if index in unacked {
        unacked := unacked - {index};
      }
      acked := acked + {index};
      if |acked| >= total {
        done := true;
      }
    }

    /** The retransmission count of the returned statistics: acknowledged chunks that still have an
        unacknowledged entry with a retry. */
    method CountRetransmissions(retries: map<int, nat>) returns (n: nat)
      ensures n == ReportedRetransmissions(unacked, acked, retries)
    {
      var hits := set i | i in acked && i in unacked && Count(retries, i) > 0;
      n := |hits|;
    }
  }

  function ReportedRetransmissions(unacked: set<int>, acked: set<int>, retries: map<int, nat>): nat {
    |set i | i in acked && i in unacked && Count(retries, i) > 0|
  }

  // ---------------------------------------------------------------- invariants

  /** A chunk is in the window that the fill loop has not yet counted. */
  predicate InPush(s: State) {
    s.phase.Pushing? || s.phase.Failed?
  }

  /** The indices put into the window so far. */
  function Sent(t: Transfer, s: State): set<int>
    requires s.sendIdx <= |t.indices| && (InPush(s) ==> s.sendIdx < |t.indices|)
  {
    ToSet(t.indices[..s.sendIdx + if InPush(s) then 1 else 0])
  }

  ghost predicate WindowInv(t: Transfer, s: State) {
    && s.sendIdx <= |t.indices|
    && (InPush(s) ==> s.sendIdx < |t.indices|)
    && |s.unacked| <= t.window
    && s.unacked !! s.acked
    && s.unacked + s.acked == Sent(t, s)
  }

  ghost predicate ChannelInv(s: State) {
    && s.acked <= s.stored
    && s.stored <= s.transmitted.Keys
    && s.transmitted.Keys == s.unacked + s.acked == s.retries.Keys
    && (forall i :: i in s.timedOut ==> i in s.unacked + s.acked)
  }

  /** Every send of an index is its first or one of its counted retries, and every counted retry was sent or its
      send raised. */
  predicate RetryBound(s: State, i: int) {
    && Count(s.retries, i) <= MAX_RETRIES
    && Count(s.transmitted, i) + Count(s.failed, i) == if i in s.retries then 1 + Count(s.retries, i) else 0
  }

  ghost predicate RetryInv(s: State) {
    forall i :: RetryBound(s, i)
  }

  ghost predicate DoneInv(t: Transfer, s: State) {
    && (s.done ==> s.lost || |s.acked| >= |t.indices|)
    && (s.phase.Returned? ==> s.done || |t.indices| == 0)
  }

  ghost predicate Inv(t: Transfer, s: State) {
    WindowInv(t, s) && ChannelInv(s) && RetryInv(s) && DoneInv(t, s)
  }

  lemma PrefixSet(indices: seq<int>, n: nat)
    requires Distinct(indices) && n < |indices|
    ensures ToSet(indices[..n + 1]) == ToSet(indices[..n]) + {indices[n]}
    ensures indices[n] !in ToSet(indices[..n])
  {
    assert indices[..n + 1] == indices[..n] + [indices[n]];
  }

  lemma AddOne(a: set<int>, x: int, n: nat)
    requires |a| < n
    ensures |a + {x}| <= n
  {
    if x in a {
      assert a + {x} == a;
    }
  }

  lemma PushSent(t: Transfer, s: State)
    requires Distinct(t.indices) && s.sendIdx < |t.indices| && s.phase.Filling?
    ensures t.indices[s.sendIdx] !in Sent(t, s)
    ensures Sent(t, s.(phase := Pushing)) == Sent(t, s) + {t.indices[s.sendIdx]}
  {
    PrefixSet(t.indices, s.sendIdx);
  }

  lemma SentSame(t: Transfer, s: State, s': State)
    requires s.sendIdx <= |t.indices| && (InPush(s) ==> s.sendIdx < |t.indices|)
    requires s'.sendIdx == s.sendIdx && InPush(s') == InPush(s)
    ensures Sent(t, s') == Sent(t, s)
  {
  }

  lemma PushWindow(t: Transfer, s: State)
    requires Distinct(t.indices) && WindowInv(t, s) && Enabled(t, s, Push)
    ensures WindowInv(t, Step(t, s, Push))
    ensures t.indices[s.sendIdx] !in s.unacked + s.acked
  {
    var i := t.indices[s.sendIdx];
    var s' := Step(t, s, Push);
    PushSent(t, s);
    SentSame(t, s.(phase := Pushing), s');
    PushedSets(s.unacked, s.acked, i);
    AddOne(s.unacked, i, t.window);
    assert s'.unacked + s'.acked == Sent(t, s');
  }

  lemma PushedSets(unacked: set<int>, acked: set<int>, i: int)
    requires i !in unacked + acked && unacked !! acked
    ensures unacked + {i} !! acked && (unacked + {i}) + acked == unacked + acked + {i}
  {
  }

  /** A step that sends nothing keeps the retry bound. */
  lemma RetrySame(s: State, s': State)
    requires RetryInv(s) && s'.retries == s.retries && s'.transmitted == s.transmitted && s'.failed == s.failed
    ensures RetryInv(s')
  {
    forall j ensures RetryBound(s', j) {
      assert RetryBound(s, j);
    }
  }

  lemma PushRetry(t: Transfer, s: State)
    requires RetryInv(s) && Enabled(t, s, Push) && t.indices[s.sendIdx] !in s.transmitted && t.indices[s.sendIdx] !in s.retries
    ensures RetryInv(Step(t, s, Push))
  {
    forall j ensures RetryBound(Step(t, s, Push), j) {
      assert RetryBound(s, j);
    }
  }

  lemma PushChannel(t: Transfer, s: State)
    requires ChannelInv(s) && Enabled(t, s, Push)
    ensures ChannelInv(Step(t, s, Push))
  {
    var s', i := Step(t, s, Push), t.indices[s.sendIdx];
    assert s'.transmitted.Keys == s.transmitted.Keys + {i} && s'.retries.Keys == s.retries.Keys + {i};
    assert s'.unacked + s'.acked == s.unacked + s.acked + {i};
  }

  lemma PushInv(t: Transfer, s: State)
    requires Distinct(t.indices) && Inv(t, s) && Enabled(t, s, Push)
    ensures Inv(t, Step(t, s, Push))
  {
    var s' := Step(t, s, Push);
    PushWindow(t, s);
    PushChannel(t, s);
    assert RetryInv(s') by {
      PushRetry(t, s);
    }
    assert DoneInv(t, s');
  }

  lemma PushedWindow(t: Transfer, s: State)
    requires WindowInv(t, s) && Enabled(t, s, Pushed)
    ensures WindowInv(t, Step(t, s, Pushed))
    ensures t.indices[s.sendIdx] in s.unacked + s.acked
  {
    assert Sent(t, Step(t, s, Pushed)) == Sent(t, s);
    assert t.indices[..s.sendIdx + 1][s.sendIdx] == t.indices[s.sendIdx];
    assert t.indices[s.sendIdx] in Sent(t, s);
  }

  lemma PushedInv(t: Transfer, s: State)
    requires Inv(t, s) && Enabled(t, s, Pushed)
    ensures Inv(t, Step(t, s, Pushed))
  {
    PushedWindow(t, s);
    RetrySame(s, Step(t, s, Pushed));
  }

  lemma AckWindow(t: Transfer, s: State, i: int)
    requires WindowInv(t, s) && i in s.unacked + s.acked
    ensures WindowInv(t, Acknowledged(t, s, i))
    ensures Acknowledged(t, s, i).unacked + Acknowledged(t, s, i).acked == s.unacked + s.acked
  {
    var s' := Acknowledged(t, s, i);
    assert s'.unacked + s'.acked == s.unacked + s.acked;
    SubsetSize(s'.unacked, s.unacked);
  }

  lemma AckInv(t: Transfer, s: State, i: int)
    requires Inv(t, s) && Enabled(t, s, Ack(i))
    ensures Inv(t, Step(t, s, Ack(i)))
  {
    var s' := Acknowledged(t, s, i);
    AckWindow(t, s, i);
    SubsetSize(s.acked, s'.acked);
    RetrySame(s, s');
  }

  lemma RetransmitRetry(s: State, sent: bool)
    requires s.timedOut != [] && RetryInv(s) && s.timedOut[0] in s.retries
    ensures RetryInv(Swept(s, sent))
  {
    forall j ensures RetryBound(Swept(s, sent), j) {
      assert RetryBound(s, j);
    }
  }

  lemma SweptWindow(t: Transfer, s: State, sent: bool)
    requires WindowInv(t, s) && DoneInv(t, s) && s.timedOut != []
    ensures WindowInv(t, Swept(s, sent)) && DoneInv(t, Swept(s, sent))
  {
    SentSame(t, s, Swept(s, sent));
  }

  lemma RetransmitInv(t: Transfer, s: State, sent: bool)
    requires Inv(t, s) && s.timedOut != []
    ensures Inv(t, Swept(s, sent))
  {
    var s' := Swept(s, sent);
    assert s.timedOut[0] in s.timedOut;
    SweptWindow(t, s, sent);
    assert RetryInv(s') by {
      RetransmitRetry(s, sent);
    }
    assert ChannelInv(s') by {
      RetransmitChannel(s, sent);
    }
  }

  lemma RetransmitChannel(s: State, sent: bool)
    requires ChannelInv(s) && s.timedOut != []
    ensures ChannelInv(Swept(s, sent))
  {
    assert s.timedOut[0] in s.timedOut;
    forall i | i in s.timedOut[1..] ensures i in s.unacked + s.acked {
      assert i in s.timedOut;
    }
    var s', i := Swept(s, sent), s.timedOut[0];
    assert s'.transmitted.Keys == s.transmitted.Keys + (if i in s'.transmitted then {i} else {});
    assert s'.retries.Keys == s.retries.Keys + {i};
  }

  lemma OtherWindow(t: Transfer, s: State, a: Action)
    requires WindowInv(t, s) && Enabled(t, s, a)
    requires !a.Push? && !a.Pushed? && !a.Ack? && !a.Retransmit? && !a.RetransmitFails?
    ensures WindowInv(t, Step(t, s, a))
  {
    SentSame(t, s, Step(t, s, a));
  }

  lemma OtherChannel(t: Transfer, s: State, a: Action)
    requires ChannelInv(s) && Enabled(t, s, a)
    requires !a.Push? && !a.Pushed? && !a.Ack? && !a.Retransmit? && !a.RetransmitFails?
    ensures ChannelInv(Step(t, s, a))
  {
  }

  lemma OtherInv(t: Transfer, s: State, a: Action)
    requires Inv(t, s) && Enabled(t, s, a)
    requires !a.Push? && !a.Pushed? && !a.Ack? && !a.Retransmit? && !a.RetransmitFails?
    ensures Inv(t, Step(t, s, a))
  {
    var s' := Step(t, s, a);
    OtherWindow(t, s, a);
    OtherChannel(t, s, a);
    assert RetryInv(s') by {
      RetrySame(s, s');
    }
    assert DoneInv(t, s');
  }

  lemma StepInv(t: Transfer, s: State, a: Action)
    requires Distinct(t.indices) && Inv(t, s) && Enabled(t, s, a)
    ensures Inv(t, Step(t, s, a))
  {
    match a
    case Push => PushInv(t, s);
    case Pushed => PushedInv(t, s);
    case Ack(i) => AckInv(t, s, i);
    case Retransmit => RetransmitInv(t, s, true);
    case RetransmitFails => RetransmitInv(t, s, false);
    case _ => OtherInv(t, s, a);
  }

  lemma StartInv(t: Transfer)
    ensures Inv(t, Start)
  {
  }

  lemma {:induction false} RunInv(t: Transfer, s: State, acts: seq<Action>)
    requires Distinct(t.indices) && Inv(t, s) && After(t, s, acts).Some?
    ensures Inv(t, After(t, s, acts).value)
    decreases |acts|
  {
    if |acts| > 0 {
      StepInv(t, s, acts[0]);
      RunInv(t, Step(t, s, acts[0]), acts[1..]);
    }
  }

  // ---------------------------------------------------------------- safety over every run

  /** The window bound, the partition of what was sent, and the retry bound. */
  lemma WindowSafety(t: Transfer, acts: seq<Action>, i: int)
    requires Distinct(t.indices) && After(t, Start, acts).Some?
    ensures var s := After(t, Start, acts).value;
            && |s.unacked| <= t.window
            && s.unacked !! s.acked
            && s.sendIdx <= |t.indices| && (InPush(s) ==> s.sendIdx < |t.indices|)
            && s.unacked + s.acked == Sent(t, s) <= ToSet(t.indices)
            && Count(s.transmitted, i) <= 1 + MAX_RETRIES
            && (i in Sent(t, s) ==> Count(s.transmitted, i) + Count(s.failed, i) == 1 + Count(s.retries, i))
            && (i !in Sent(t, s) ==> i !in s.transmitted)
  {
    StartInv(t);
    RunInv(t, Start, acts);
    var s := After(t, Start, acts).value;
    SentIsIndices(t, s);
    assert RetryBound(s, i);
  }

  lemma SentIsIndices(t: Transfer, s: State)
    requires s.sendIdx <= |t.indices| && (InPush(s) ==> s.sendIdx < |t.indices|)
    ensures Sent(t, s) <= ToSet(t.indices)
  {
  }

  /** A report with as many acknowledgements as chunks means that the receiver holds every chunk. */
  lemma AllAckedMeansAllStored(t: Transfer, acts: seq<Action>)
    requires Distinct(t.indices) && After(t, Start, acts).Some?
    requires |After(t, Start, acts).value.acked| == |t.indices|
    ensures ToSet(t.indices) <= After(t, Start, acts).value.stored
  {
    StartInv(t);
    RunInv(t, Start, acts);
    var s := After(t, Start, acts).value;
    SentIsIndices(t, s);
    DistinctSize(t.indices);
    FullSubset(s.acked, ToSet(t.indices));
  }

  lemma FullSubset<T>(a: set<T>, b: set<T>)
    requires a <= b && |a| == |b|
    ensures a == b
  {
    assert b == a + (b - a);
  }

  /** The reported number of retransmissions is zero in every run, whatever was retransmitted. */
  lemma RetransmissionsReportedZero(t: Transfer, acts: seq<Action>)
    requires Distinct(t.indices) && After(t, Start, acts).Some?
    ensures var s := After(t, Start, acts).value;
            ReportedRetransmissions(s.unacked, s.acked, s.retries) == 0
  {
    StartInv(t);
    RunInv(t, Start, acts);
    var s := After(t, Start, acts).value;
    assert (set i | i in s.acked && i in s.unacked && Count(s.retries, i) > 0) == {};
  }

  // ---------------------------------------------------------------- the window does not slide

  predicate FillOver(s: State) {
    s.phase.Waiting? || s.phase.Returned?
  }

  /** A remark on the shape of the code rather than a result: once the fill loop has ended, no step is
      left that brings a further chunk into the window. */
  lemma {:induction false} NothingSentAfterFill(t: Transfer, s: State, acts: seq<Action>)
    requires FillOver(s) && After(t, s, acts).Some?
    ensures FillOver(After(t, s, acts).value) && After(t, s, acts).value.sendIdx == s.sendIdx
    decreases |acts|
  {
    if |acts| > 0 {
      NothingSentAfterFill(t, Step(t, s, acts[0]), acts[1..]);
    }
  }

  lemma PrefixSize(indices: seq<int>, n: nat)
    requires Distinct(indices) && n <= |indices|
    ensures |ToSet(indices[..n])| == n
  {
    DistinctSize(indices[..n]);
  }

  lemma FilledWhenAllAcked(t: Transfer, s: State)
    requires Distinct(t.indices) && WindowInv(t, s) && !InPush(s) && |s.acked| >= |t.indices|
    ensures s.sendIdx == |t.indices| && |s.acked| == |t.indices|
  {
    PrefixSize(t.indices, s.sendIdx);
    SubsetSize(s.acked, Sent(t, s));
  }

  /** So a transfer whose fill ended early is never completed by acknowledgements: it returns only if
      the connection is lost, and a return without loss means everything was sent and stored. */
  lemma ReturnsOnlyIfFilled(t: Transfer, acts: seq<Action>)
    requires Distinct(t.indices) && After(t, Start, acts).Some?
    requires After(t, Start, acts).value.phase.Returned? && !After(t, Start, acts).value.lost
    ensures var s := After(t, Start, acts).value;
            s.sendIdx == |t.indices| && ToSet(t.indices) <= s.stored
  {
    StartInv(t);
    RunInv(t, Start, acts);
    var s := After(t, Start, acts).value;
    FilledWhenAllAcked(t, s);
    AllAckedMeansAllStored(t, acts);
  }

  // ---------------------------------------------------------------- what a sweep sends

  /** A sweep whose sends all work transmits each expired chunk with retries left exactly once more, counts it, and
      sends nothing else. */
  lemma {:induction false} SweepSendsEach(t: Transfer, s: State, acts: seq<Action>, i: int)
    requires Running(s) && Distinct(s.timedOut) && |acts| == |s.timedOut| && forall k :: 0 <= k < |acts| ==> acts[k] == Retransmit
    ensures After(t, s, acts).Some?
    ensures SweptTo(s, After(t, s, acts).value, i, i in s.timedOut && Count(s.retries, i) < MAX_RETRIES)
    decreases |acts|
  {
    if |acts| > 0 {
      assert s.timedOut == [s.timedOut[0]] + s.timedOut[1..] && s.timedOut[0] !in s.timedOut[1..];
      SweptOne(s, i);
      SweepSendsEach(t, Swept(s, true), acts[1..], i);
    }
  }

  /** Index i was sent once more, or not; nothing is left to sweep. */
  predicate SweptTo(s: State, s': State, i: int, more: bool) {
    && s'.timedOut == [] && Running(s')
    && Count(s'.transmitted, i) == Count(s.transmitted, i) + (if more then 1 else 0)
    && Count(s'.retries, i) == Count(s.retries, i) + if more then 1 else 0
  }

  lemma SweptOne(s: State, i: int)
    requires s.timedOut != []
    ensures var s' := Swept(s, true);
            var more := if i == s.timedOut[0] && Count(s.retries, i) < MAX_RETRIES then 1 else 0;
            && s'.timedOut == s.timedOut[1..] && s'.phase == s.phase
            && Count(s'.transmitted, i) == Count(s.transmitted, i) + more
            && Count(s'.retries, i) == Count(s.retries, i) + more
  {
  }

  // ---------------------------------------------------------------- when a transfer can complete

  lemma AfterFirst(t: Transfer, s: State, a: Action, rest: seq<Action>)
    requires Enabled(t, s, a)
    ensures After(t, s, [a] + rest) == After(t, Step(t, s, a), rest)
  {
    assert ([a] + rest)[1..] == rest;
  }

  /** The first j chunks were sent once, stored and acknowledged. */
  ghost predicate Delivered(t: Transfer, s: State, j: nat) {
    && j <= |t.indices| && s.sendIdx == j && s.phase == Filling && s.unacked == {} && !s.lost && s.timedOut == []
    && s.acked == ToSet(t.indices[..j]) && s.done == (0 < j == |t.indices|)
    && forall i :: Count(s.transmitted, i) == if i in s.acked then 1 else 0
  }

  /** Chunk j is in the window, and the others are as they were. */
  ghost predicate Underway(t: Transfer, s: State, j: nat) {
    && j < |t.indices| && s.sendIdx == j && s.phase == Pushing && s.unacked == {t.indices[j]} && !s.lost && !s.done && s.timedOut == []
    && s.acked == ToSet(t.indices[..j])
    && forall i :: Count(s.transmitted, i) == if i in s.acked || i == t.indices[j] then 1 else 0
  }

  lemma PushOne(t: Transfer, s: State, j: nat)
    requires Distinct(t.indices) && t.window > 0 && j < |t.indices| && Delivered(t, s, j)
    ensures Enabled(t, s, Push) && Underway(t, Step(t, s, Push), j)
  {
    PrefixSet(t.indices, j);
    var s' := Step(t, s, Push);
    forall i ensures Count(s'.transmitted, i) == if i in s'.acked || i == t.indices[j] then 1 else 0 {
      assert Count(s.transmitted, i) == if i in s.acked then 1 else 0;
    }
  }

  lemma StoreOne(t: Transfer, s: State, j: nat)
    requires Underway(t, s, j)
    ensures Enabled(t, s, Store(t.indices[j]))
    ensures Underway(t, Step(t, s, Store(t.indices[j])), j) && t.indices[j] in Step(t, s, Store(t.indices[j])).stored
  {
    assert Count(s.transmitted, t.indices[j]) == 1;
    var s' := Step(t, s, Store(t.indices[j]));
    forall i ensures Count(s'.transmitted, i) == if i in s'.acked || i == t.indices[j] then 1 else 0 {
      assert Count(s.transmitted, i) == if i in s.acked || i == t.indices[j] then 1 else 0;
    }
  }

  lemma AckOne(t: Transfer, s: State, j: nat)
    requires Distinct(t.indices) && Underway(t, s, j) && t.indices[j] in s.stored
    ensures Enabled(t, s, Ack(t.indices[j])) && Enabled(t, Step(t, s, Ack(t.indices[j])), Pushed)
    ensures Delivered(t, Step(t, Step(t, s, Ack(t.indices[j])), Pushed), j + 1)
  {
    PrefixSet(t.indices, j);
    PrefixSize(t.indices, j);
    PrefixSize(t.indices, j + 1);
    var s' := Step(t, Step(t, s, Ack(t.indices[j])), Pushed);
    assert s'.acked == ToSet(t.indices[..j + 1]);
    forall i ensures Count(s'.transmitted, i) == if i in s'.acked then 1 else 0 {
      assert Count(s.transmitted, i) == if i in s.acked || i == t.indices[j] then 1 else 0;
    }
  }

  lemma DeliverOne(t: Transfer, s: State, j: nat) returns (s': State)
    requires Distinct(t.indices) && t.window > 0 && j < |t.indices| && Delivered(t, s, j)
    ensures Delivered(t, s', j + 1)
    ensures forall rest :: After(t, s', rest).Some? ==>
              After(t, s, [Push] + ([Store(t.indices[j])] + ([Ack(t.indices[j])] + ([Pushed] + rest)))) == After(t, s', rest)
  {
    var i := t.indices[j];
    PushOne(t, s, j);
    var s1 := Step(t, s, Push);
    StoreOne(t, s1, j);
    var s2 := Step(t, s1, Store(i));
    AckOne(t, s2, j);
    var s3 := Step(t, s2, Ack(i));
    s' := Step(t, s3, Pushed);
    forall rest | After(t, s', rest).Some?
      ensures After(t, s, [Push] + ([Store(i)] + ([Ack(i)] + ([Pushed] + rest)))) == After(t, s', rest)
    {
      AfterFirst(t, s3, Pushed, rest);
      AfterFirst(t, s2, Ack(i), [Pushed] + rest);
      AfterFirst(t, s1, Store(i), [Ack(i)] + ([Pushed] + rest));
      AfterFirst(t, s, Push, [Store(i)] + ([Ack(i)] + ([Pushed] + rest)));
    }
  }

  /** Returned without a loss, with every chunk acknowledged and transmitted exactly once. */
  ghost predicate Clean(t: Transfer, s: State) {
    && s.phase == Returned && !s.lost && s.acked == ToSet(t.indices)
    && forall i :: Count(s.transmitted, i) == if i in t.indices then 1 else 0
  }

  lemma {:induction false} DeliverRest(t: Transfer, s: State, j: nat) returns (acts: seq<Action>)
    requires Distinct(t.indices) && (t.window > 0 || |t.indices| == 0) && Delivered(t, s, j)
    ensures After(t, s, acts).Some? && Clean(t, After(t, s, acts).value)
    decreases |t.indices| - j
  {
    if j == |t.indices| {
      assert t.indices[..j] == t.indices;
      AfterFirst(t, Step(t, s, FillEnds), Return, []);
      AfterFirst(t, s, FillEnds, [Return] + []);
      acts := [FillEnds] + ([Return] + []);
    } else {
      var s' := DeliverOne(t, s, j);
      var rest := DeliverRest(t, s', j + 1);
      acts := [Push] + ([Store(t.indices[j])] + ([Ack(t.indices[j])] + ([Pushed] + rest)));
    }
  }

  lemma {:induction false} NoWindowNoSend(t: Transfer, s: State, acts: seq<Action>)
    requires t.window == 0 && s.sendIdx == 0 && !s.phase.Pushing? && After(t, s, acts).Some?
    ensures After(t, s, acts).value.sendIdx == 0
    decreases |acts|
  {
    if |acts| > 0 {
      NoWindowNoSend(t, Step(t, s, acts[0]), acts[1..]);
    }
  }

  /** A transfer can return without a lost connection if and only if there is room for a chunk in the window, or
      nothing to send; and then it can do so with every chunk transmitted just once. */
  lemma CanComplete(t: Transfer)
    requires Distinct(t.indices)
    ensures (exists acts :: After(t, Start, acts).Some? && Clean(t, After(t, Start, acts).value)) <==> t.window > 0 || |t.indices| == 0
    ensures forall acts :: After(t, Start, acts).Some? && t.window == 0 && |t.indices| > 0 ==>
              var s := After(t, Start, acts).value; !(s.phase.Returned? && !s.lost)
  {
    if t.window > 0 || |t.indices| == 0 {
      assert t.indices[..0] == [];
      var acts := DeliverRest(t, Start, 0);
    }
    forall acts | After(t, Start, acts).Some? && t.window == 0 && |t.indices| > 0
      ensures var s := After(t, Start, acts).value; !(s.phase.Returned? && !s.lost)
    {
      NoWindowNoSend(t, Start, acts);
      var s := After(t, Start, acts).value;
      if s.phase.Returned? && !s.lost {
        ReturnsOnlyIfFilled(t, acts);
      }
    }
  }

  // ---------------------------------------------------------------- what becomes of failures

  /** A transfer that waits returns as soon as its connection is lost. */
  lemma LossReturns(t: Transfer, s: State)
    requires s.phase == Waiting
    ensures After(t, s, [Lose] + ([Return] + [])).Some?
    ensures var s' := After(t, s, [Lose] + ([Return] + [])).value; s'.phase == Returned && s'.lost && s'.acked == s.acked
  {
    AfterFirst(t, Step(t, s, Lose), Return, []);
    AfterFirst(t, s, Lose, [Return] + []);
  }

  lemma {:induction false} FailedIsFinal(t: Transfer, s: State, acts: seq<Action>)
    requires s.phase == Failed && After(t, s, acts).Some?
    ensures After(t, s, acts).value.phase == Failed && After(t, s, acts).value.transmitted == s.transmitted
    decreases |acts|
  {
    if |acts| > 0 {
      FailedIsFinal(t, Step(t, s, acts[0]), acts[1..]);
    }
  }

  /** After a send that raises, the transfer sends nothing more and does not return. */
  lemma FailedPushEnds(t: Transfer, s: State, acts: seq<Action>)
    requires s.phase == Pushing && After(t, s, [PushFails] + acts).Some?
    ensures var s' := After(t, s, [PushFails] + acts).value; s'.transmitted == s.transmitted && s'.phase != Returned
  {
    AfterFirst(t, s, PushFails, acts);
    FailedIsFinal(t, Step(t, s, PushFails), acts);
  }

  /** A chunk in flight that has timed out is found by the sweep and sent again, if it has retries left. */
  lemma LostChunkIsResent(t: Transfer, s: State, i: int)
    requires Running(s) && s.timedOut == [] && i in s.unacked
    ensures var r := After(t, s, [Scan([i])] + ([Retransmit] + []));
            && r.Some?
            && Count(r.value.transmitted, i) == Count(s.transmitted, i) + if Count(s.retries, i) < MAX_RETRIES then 1 else 0
  {
    var s1 := Step(t, s, Scan([i]));
    AfterFirst(t, s1, Retransmit, []);
    AfterFirst(t, s, Scan([i]), [Retransmit] + []);
  }

  /** Nothing has been acknowledged yet: what was sent is in flight, and once the fill has ended that is as much as the
      window holds. */
  predicate Unanswered(t: Transfer, s: State) {
    && s.acked == {} && s.sendIdx <= |t.indices| && (InPush(s) ==> s.sendIdx < |t.indices|) && s.unacked == Sent(t, s)
    && (FillOver(s) ==> s.sendIdx == |t.indices| || s.sendIdx >= t.window)
  }

  lemma PushUnanswered(t: Transfer, s: State)
    requires Distinct(t.indices) && Unanswered(t, s) && Enabled(t, s, Push)
    ensures Unanswered(t, Step(t, s, Push))
  {
    PrefixSet(t.indices, s.sendIdx);
    SentSame(t, s.(phase := Pushing), Step(t, s, Push));
    PushSent(t, s);
  }

  lemma PushedUnanswered(t: Transfer, s: State)
    requires Unanswered(t, s) && Enabled(t, s, Pushed)
    ensures Unanswered(t, Step(t, s, Pushed))
  {
    assert Sent(t, Step(t, s, Pushed)) == Sent(t, s);
  }

  lemma FillEndsUnanswered(t: Transfer, s: State)
    requires Distinct(t.indices) && Unanswered(t, s) && Enabled(t, s, FillEnds)
    ensures Unanswered(t, Step(t, s, FillEnds))
  {
    PrefixSize(t.indices, s.sendIdx);
    SentSame(t, s, Step(t, s, FillEnds));
  }

  lemma OtherUnanswered(t: Transfer, s: State, a: Action)
    requires Unanswered(t, s) && Enabled(t, s, a) && !a.Ack? && !a.Push? && !a.Pushed? && !a.FillEnds?
    ensures Unanswered(t, Step(t, s, a))
  {
    SentSame(t, s, Step(t, s, a));
  }

  lemma UnansweredStep(t: Transfer, s: State, a: Action)
    requires Distinct(t.indices) && Unanswered(t, s) && Enabled(t, s, a) && !a.Ack?
    ensures Unanswered(t, Step(t, s, a))
  {
    match a
    case Push => PushUnanswered(t, s);
    case Pushed => PushedUnanswered(t, s);
    case FillEnds => FillEndsUnanswered(t, s);
    case _ => OtherUnanswered(t, s, a);
  }

  lemma {:induction false} UnansweredRun(t: Transfer, s: State, acts: seq<Action>)
    requires Distinct(t.indices) && Unanswered(t, s) && After(t, s, acts).Some? && forall k :: 0 <= k < |acts| ==> !acts[k].Ack?
    ensures Unanswered(t, After(t, s, acts).value)
    decreases |acts|
  {
    if |acts| > 0 {
      UnansweredStep(t, s, acts[0]);
      UnansweredRun(t, Step(t, s, acts[0]), acts[1..]);
    }
  }

  /** As long as nothing is acknowledged, the fill puts exactly the first window of chunks in flight. */
  lemma FirstWindowIsSent(t: Transfer, acts: seq<Action>)
    requires Distinct(t.indices) && After(t, Start, acts).Some? && forall k :: 0 <= k < |acts| ==> !acts[k].Ack?
    requires FillOver(After(t, Start, acts).value)
    ensures var s := After(t, Start, acts).value;
            s.sendIdx == (if t.window <= |t.indices| then t.window else |t.indices|) && s.unacked == ToSet(t.indices[..s.sendIdx])
  {
    assert t.indices[..0] == [];
    UnansweredRun(t, Start, acts);
    StartInv(t);
    RunInv(t, Start, acts);
    PrefixSize(t.indices, After(t, Start, acts).value.sendIdx);
  }
}
