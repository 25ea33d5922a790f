/** Two workers on one record: a resume accepted under a waiting pause, and what the pair can lose
    (backend/api/download_manager.py:256-339,357-397). */
module DownloadTwoWorkers {
  import opened Seqs
  import opened Download
  import opened DownloadCrash
  import opened DownloadLosses

  function Range(a: nat, n: nat): seq<nat>
    requires a <= n
  {
    seq(n - a, i requires 0 <= i => a + i)
  }

  lemma {:induction false} TodoOfRange(k: nat, a: nat, n: nat)
    requires k <= n && a <= n
    ensures Todo(k, Range(a, n)) == if k <= a then [] else Range(a, k)
  {
    if k > 0 {
      TodoOfRange(k - 1, a, n);
      if k > a {
        assert Range(a, n)[k - 1 - a] == k - 1;
        assert Range(a, k) == (if k - 1 <= a then [] else Range(a, k - 1)) + [k - 1];
      }
    }
  }

  lemma IndicesAreRange(n: nat)
    ensures Indices(n) == Range(0, n)
  {
  }

  /** Worker w is about to visit the chunks from a on; exactly those before a are completed. */
  ghost predicate Ready(m: Manifest, s: State, w: nat, a: nat)
    requires WellIndexed(s)
  {
    && w < |s.workers| && a <= m.total
    && var me := s.workers[w];
    && !me.stop && !me.cancel && s.cur == Some(me.obj)
    && (me.pc.Created? || (me.pc.Head? && me.todo == Range(a, m.total)))
    && s.objs[me.obj].missing == Range(a, m.total) && s.objs[me.obj].completed == Range(0, a)
  }

  lemma RunRound(m: Manifest, s: State, w: nat, a: nat)
    requires WellIndexed(s) && Ready(m, s, w, a) && a < m.total
    ensures Enabled(s, Run(w))
    ensures Step(m, s, Run(w)) == s.(workers := s.workers[w := s.workers[w].(todo := Range(a + 1, m.total), pc := Fetching(a))])
  {
    TodoOfRange(m.total, a, m.total);
    assert Range(a, m.total)[0] == a;
    assert Range(a, m.total)[1..] == Range(a + 1, m.total);
  }

  lemma FetchRound(m: Manifest, s: State, w: nat, a: nat)
    requires WellIndexed(s) && w < |s.workers| && a < m.total && !s.workers[w].cancel && !s.workers[w].stop
    requires s.workers[w].pc == Fetching(a) && s.workers[w].todo == Range(a + 1, m.total)
    requires s.cur == Some(s.workers[w].obj) && s.workers[w].since + 1 < FLUSH_INTERVAL
    requires s.objs[s.workers[w].obj].missing == Range(a, m.total) && s.objs[s.workers[w].obj].completed == Range(0, a)
    ensures Enabled(s, FetchOk(w))
    ensures var s' := Step(m, s, FetchOk(w));
            && s'.workers == s.workers[w := s.workers[w].(since := s.workers[w].since + 1, pc := Head)]
            && Ready(m, s', w, a + 1) && s'.disk == s.disk && |s'.objs| == |s.objs|
  {
    var r := s.objs[s.workers[w].obj];
    assert r.missing[0] == a && r.missing[1..] == Range(a + 1, m.total);
    assert a !in Range(0, a);
    assert Range(0, a) + [a] == Range(0, a + 1);
    assert Marked(r, a).missing == Range(a + 1, m.total) && Marked(r, a).completed == Range(0, a + 1);
  }

  /** The other workers, the .resume file and the worker's own state object stay as they are. */
  ghost predicate OnlyWorker(s: State, s': State, w: nat)
    requires w < |s.workers|
  {
    && s'.disk == s.disk && |s'.workers| == |s.workers| && s'.workers[w].obj == s.workers[w].obj
    && forall j :: 0 <= j < |s.workers| && j != w ==> s'.workers[j] == s.workers[j]
  }

  lemma OneRound(m: Manifest, s: State, w: nat, a: nat) returns (s1: State, s2: State)
    requires WellIndexed(s) && Ready(m, s, w, a) && a < m.total && s.workers[w].since + 1 < FLUSH_INTERVAL
    ensures Enabled(s, Run(w)) && s1 == Step(m, s, Run(w)) && WellIndexed(s1)
    ensures Enabled(s1, FetchOk(w)) && s2 == Step(m, s1, FetchOk(w)) && WellIndexed(s2)
    ensures Ready(m, s2, w, a + 1) && OnlyWorker(s, s2, w) && s2.workers[w].since == s.workers[w].since + 1
  {
    RunRound(m, s, w, a);
    s1 := Step(m, s, Run(w));
    FetchRound(m, s1, w, a);
    s2 := Step(m, s1, FetchOk(w));
  }

  /** k chunks by worker w, none of them flushed. */
  ghost predicate Rounded(m: Manifest, s: State, w: nat, a: nat, k: nat, acts: seq<Action>)
    requires WellIndexed(s) && w < |s.workers|
  {
    && (forall x :: x in acts ==> x.Run? || x.FetchOk?)
    && After(m, s, acts).Some?
    && Ready(m, After(m, s, acts).value, w, a + k) && OnlyWorker(s, After(m, s, acts).value, w)
  }

  lemma RoundFirst(m: Manifest, s: State, w: nat, a: nat, k: nat, s1: State, s2: State, rest: seq<Action>)
    requires WellIndexed(s) && WellIndexed(s1) && WellIndexed(s2) && w < |s.workers|
    requires Enabled(s, Run(w)) && s1 == Step(m, s, Run(w))
    requires Enabled(s1, FetchOk(w)) && s2 == Step(m, s1, FetchOk(w))
    requires OnlyWorker(s, s2, w) && Rounded(m, s2, w, a + 1, k, rest)
    ensures Rounded(m, s, w, a, k + 1, [Run(w)] + ([FetchOk(w)] + rest))
  {
    AfterFirst(m, s, Run(w), [FetchOk(w)] + rest);
    AfterFirst(m, s1, FetchOk(w), rest);
    assert a + 1 + k == a + (k + 1);
  }

  ghost predicate CanRound(m: Manifest, s: State, w: nat, a: nat, k: nat) {
    WellIndexed(s) && w < |s.workers| && exists acts :: Rounded(m, s, w, a, k, acts)
  }

  /** Worker w may go k rounds before its next flush. */
  ghost predicate MayGoOn(m: Manifest, s: State, w: nat, a: nat, k: nat) {
    WellIndexed(s) && Ready(m, s, w, a) && a + k <= m.total && s.workers[w].since + k < FLUSH_INTERVAL
  }

  /** One round, and whatever j rounds can follow it. */
  lemma RoundsFollow(m: Manifest, s: State, w: nat, a: nat, j: nat) returns (s': State)
    requires MayGoOn(m, s, w, a, j + 1)
    ensures MayGoOn(m, s', w, a + 1, j)
    ensures CanRound(m, s', w, a + 1, j) ==> CanRound(m, s, w, a, j + 1)
  {
    var s1, s2 := OneRound(m, s, w, a);
    s' := s2;
    if CanRound(m, s2, w, a + 1, j) {
      var rest :| Rounded(m, s2, w, a + 1, j, rest);
      RoundFirst(m, s, w, a, j, s1, s2, rest);
    }
  }

  lemma NoRound(m: Manifest, s: State, w: nat, a: nat)
    requires MayGoOn(m, s, w, a, 0)
    ensures CanRound(m, s, w, a, 0)
  {
    assert Rounded(m, s, w, a, 0, []);
  }

  lemma {:induction false} Rounds(m: Manifest, s: State, w: nat, a: nat, k: nat)
    ensures MayGoOn(m, s, w, a, k) ==> CanRound(m, s, w, a, k)
    decreases k
  {
    if MayGoOn(m, s, w, a, k) {
      if k == 0 {
        NoRound(m, s, w, a);
      } else {
        var s' := RoundsFollow(m, s, w, a, k - 1);
        Rounds(m, s', w, a + 1, k - 1);
      }
    }
  }

  /** Two workers on one record can hold 18 chunks that the .resume file does not have: twice what a single
      worker can. */
  lemma TwoWorkersDoubleTheLoss(m: Manifest, s: State, v: nat, w: nat) returns (acts: seq<Action>)
    requires WellIndexed(s) && v != w && Ready(m, s, v, 0) && Ready(m, s, w, 0)
    requires s.workers[v].pc.Created? && s.workers[v].since == 0 && s.workers[w].pc.Created? && s.workers[w].since == 0
    requires m.total >= 18 && s.disk.Some? && s.disk.value.completed == []
    ensures (forall x :: x in acts ==> x.Run? || x.FetchOk?) && After(m, s, acts).Some?
    ensures !Behind(After(m, s, acts).value, 17)
  {
    Rounds(m, s, v, 0, 9);
    var first :| Rounded(m, s, v, 0, 9, first);
    var s1 := After(m, s, first).value;
    Rounds(m, s1, w, 9, 9);
    var second :| Rounded(m, s1, w, 9, 9, second);
    AfterConcat(m, s, first, second);
    acts := first + second;
    assert |Range(0, 18)| == 18;
  }

  // ---------------------------------------------------------------- the run that leads there

  /** A run that issues no start and no resume while the tracked download is finalizing. */
  ghost predicate NoneFinalizing(m: Manifest, s: State, acts: seq<Action>)
    requires WellIndexed(s)
    decreases |acts|
  {
    |acts| > 0 ==>
      && Enabled(s, acts[0])
      && (acts[0].Start? || acts[0].Resume? ==> !(s.cur.Some? && s.objs[s.cur.value].status.Finalizing?))
      && NoneFinalizing(m, Step(m, s, acts[0]), acts[1..])
  }

  lemma NoneFirst(m: Manifest, s: State, a: Action, rest: seq<Action>)
    requires WellIndexed(s) && Enabled(s, a) && NoneFinalizing(m, Step(m, s, a), rest)
    requires a.Start? || a.Resume? ==> !(s.cur.Some? && s.objs[s.cur.value].status.Finalizing?)
    ensures NoneFinalizing(m, s, [a] + rest)
    ensures After(m, s, [a] + rest) == After(m, Step(m, s, a), rest)
  {
    assert ([a] + rest)[1..] == rest;
  }

  lemma {:induction false} NoneWithoutCalls(m: Manifest, s: State, acts: seq<Action>)
    requires WellIndexed(s) && After(m, s, acts).Some? && forall a :: a in acts ==> !a.Start? && !a.Resume?
    ensures NoneFinalizing(m, s, acts)
    decreases |acts|
  {
    if |acts| > 0 {
      NoneWithoutCalls(m, Step(m, s, acts[0]), acts[1..]);
    }
  }

  /** Worker 0 fetches its first chunk while a pause waits for it. */
  function PausedMidway(m: Manifest): State
    requires m.total > 0
  {
    State([NewRecord(m)], Some(0), Some(NewRecord(m)), [Worker(0, Range(1, m.total), 0, Fetching(0), true, false)],
          [Waiting(0, 0)], Some(0), Some(0), {})
  }

  /** For every file with chunks a pause that waits for a fetching worker is reached. */
  lemma PausedMidwayReached(m: Manifest, rest: seq<Action>)
    requires m.total > 0 && After(m, PausedMidway(m), rest).Some? && NoneFinalizing(m, PausedMidway(m), rest)
    ensures var acts := [Start] + ([Run(0)] + ([Pause] + rest));
            After(m, Fresh, acts) == After(m, PausedMidway(m), rest) && NoneFinalizing(m, Fresh, acts)
  {
    IndicesAreRange(m.total);
    TodoOfRange(m.total, 0, m.total);
    assert Range(0, m.total)[0] == 0 && Range(0, m.total)[1..] == Range(1, m.total);
    var s1 := Step(m, Fresh, Start);
    var s2 := Step(m, s1, Run(0));
    assert s2.workers == [Worker(0, Range(1, m.total), 0, Fetching(0), false, false)];
    assert Step(m, s2, Pause) == PausedMidway(m);
    NoneFirst(m, s2, Pause, rest);
    NoneFirst(m, s1, Run(0), [Pause] + rest);
    NoneFirst(m, Fresh, Start, [Run(0)] + ([Pause] + rest));
  }

  const FIRST := Worker(0, [], 0, Created, false, false)

  function EndedFirst(m: Manifest): Worker
    requires m.total > 0
  {
    Worker(0, Range(1, m.total), 0, Ended, true, false)
  }

  /** The fetch failed; the pause still waits. */
  function Failed(m: Manifest): State
    requires m.total > 0
  {
    State([NewRecord(m).(status := Error)], Some(0), Some(NewRecord(m)), [EndedFirst(m)], [Waiting(0, 0)], Some(0), Some(0), {})
  }

  /** Resumed under the waiting pause. */
  function Resumed(m: Manifest): State
    requires m.total > 0
  {
    State([NewRecord(m)], Some(0), Some(NewRecord(m)), [EndedFirst(m), FIRST], [Waiting(0, 0)], Some(1), Some(1), {})
  }

  /** The pause has marked the running download paused. */
  function Woken(m: Manifest): State
    requires m.total > 0
  {
    var paused := NewRecord(m).(status := Paused);
    State([paused], Some(0), Some(paused), [EndedFirst(m), FIRST], [], None, None, {})
  }

  /** Workers 1 and 2 have both yet to start on the one record. */
  function TwoOnOne(m: Manifest): State
    requires m.total > 0
  {
    State([NewRecord(m)], Some(0), Some(NewRecord(m).(status := Paused)), [EndedFirst(m), FIRST, FIRST], [], Some(2), Some(2), {})
  }

  lemma Fails(m: Manifest, rest: seq<Action>)
    requires m.total > 0 && After(m, Failed(m), rest).Some? && NoneFinalizing(m, Failed(m), rest)
    ensures After(m, PausedMidway(m), [FetchFails(0)] + rest) == After(m, Failed(m), rest) && NoneFinalizing(m, PausedMidway(m), [FetchFails(0)] + rest)
  {
    assert Step(m, PausedMidway(m), FetchFails(0)) == Failed(m);
    NoneFirst(m, PausedMidway(m), FetchFails(0), rest);
  }

  lemma ResumesFailed(m: Manifest, rest: seq<Action>)
    requires m.total > 0 && After(m, Resumed(m), rest).Some? && NoneFinalizing(m, Resumed(m), rest)
    ensures After(m, Failed(m), [Resume(true)] + rest) == After(m, Resumed(m), rest) && NoneFinalizing(m, Failed(m), [Resume(true)] + rest)
  {
    assert Step(m, Failed(m), Resume(true)) == Resumed(m);
    NoneFirst(m, Failed(m), Resume(true), rest);
  }

  lemma Wakes(m: Manifest, rest: seq<Action>)
    requires m.total > 0 && After(m, Woken(m), rest).Some? && NoneFinalizing(m, Woken(m), rest)
    ensures After(m, Resumed(m), [PauseWake(0)] + rest) == After(m, Woken(m), rest) && NoneFinalizing(m, Resumed(m), [PauseWake(0)] + rest)
  {
    WakeStep(m);
    NoneFirst(m, Resumed(m), PauseWake(0), rest);
  }

  lemma WakeStep(m: Manifest)
    requires m.total > 0
    ensures Enabled(Resumed(m), PauseWake(0)) && Step(m, Resumed(m), PauseWake(0)) == Woken(m)
  {
    assert RemoveAt([Waiting(0, 0)], 0) == [];
  }

  lemma ResumesWoken(m: Manifest, rest: seq<Action>)
    requires m.total > 0 && After(m, TwoOnOne(m), rest).Some? && NoneFinalizing(m, TwoOnOne(m), rest)
    ensures After(m, Woken(m), [Resume(true)] + rest) == After(m, TwoOnOne(m), rest) && NoneFinalizing(m, Woken(m), [Resume(true)] + rest)
  {
    assert Step(m, Woken(m), Resume(true)) == TwoOnOne(m);
    NoneFirst(m, Woken(m), Resume(true), rest);
  }

  /** Not calling start or resume while finalizing is not enough: when the fetch fails under a waiting
      pause, a resume in between is accepted, the pause then marks the running download paused, and a
      second resume puts a second worker on the same record. */
  lemma ResumeUnderWaitingPause(m: Manifest, rest: seq<Action>)
    requires m.total > 0 && After(m, TwoOnOne(m), rest).Some? && NoneFinalizing(m, TwoOnOne(m), rest)
    ensures var acts := [FetchFails(0)] + ([Resume(true)] + ([PauseWake(0)] + ([Resume(true)] + rest)));
            After(m, PausedMidway(m), acts) == After(m, TwoOnOne(m), rest) && NoneFinalizing(m, PausedMidway(m), acts)
  {
    ResumesWoken(m, rest);
    Wakes(m, [Resume(true)] + rest);
    ResumesFailed(m, [PauseWake(0)] + ([Resume(true)] + rest));
    Fails(m, [Resume(true)] + ([PauseWake(0)] + ([Resume(true)] + rest)));
  }

  lemma TwoOnOneReached(m: Manifest, rest: seq<Action>) returns (acts: seq<Action>)
    requires m.total > 0 && After(m, TwoOnOne(m), rest).Some? && NoneFinalizing(m, TwoOnOne(m), rest)
    ensures After(m, Fresh, acts) == After(m, TwoOnOne(m), rest) && NoneFinalizing(m, Fresh, acts)
  {
    ResumeUnderWaitingPause(m, rest);
    var middle := [FetchFails(0)] + ([Resume(true)] + ([PauseWake(0)] + ([Resume(true)] + rest)));
    PausedMidwayReached(m, middle);
    acts := [Start] + ([Run(0)] + ([Pause] + middle));
  }

  /** For every file of at least 18 chunks a run that never starts or resumes a finalizing download ends with
      18 completed chunks that the .resume file does not have. */
  lemma EighteenChunksLost(m: Manifest) returns (acts: seq<Action>)
    requires m.total >= 18
    ensures After(m, Fresh, acts).Some? && NoneFinalizing(m, Fresh, acts)
    ensures !Behind(After(m, Fresh, acts).value, 17)
  {
    var s := TwoOnOne(m);
    IndicesAreRange(m.total);
    var rest := TwoWorkersDoubleTheLoss(m, s, 1, 2);
    NoneWithoutCalls(m, s, rest);
    acts := TwoOnOneReached(m, rest);
  }
}
