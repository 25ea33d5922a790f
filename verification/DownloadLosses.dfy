/** Runs that lose the crash bound: what careless start and resume calls lead to
    (backend/api/download_manager.py:175-339). */
module DownloadLosses {
  import opened Seqs
  import opened Download
  import opened DownloadCrash
  import opened DownloadCalls

  // ---------------------------------------------------------------- putting runs together

  lemma AfterFirst(m: Manifest, s: State, a: Action, rest: seq<Action>)
    requires WellIndexed(s) && Enabled(s, a)
    ensures After(m, s, [a] + rest) == After(m, Step(m, s, a), rest)
  {
    assert ([a] + rest)[1..] == rest;
  }

  lemma {:induction false} AfterConcat(m: Manifest, s: State, a: seq<Action>, b: seq<Action>)
    requires WellIndexed(s) && After(m, s, a).Some?
    ensures After(m, s, a + b) == After(m, After(m, s, a).value, b)
    decreases |a|
  {
    if |a| == 0 {
      assert a + b == b;
    } else {
      var rest := a[1..];
      assert a == [a[0]] + rest;
      Regroup([a[0]], rest, b);
      AfterFirst(m, s, a[0], rest);
      AfterFirst(m, s, a[0], rest + b);
      AfterConcat(m, Step(m, s, a[0]), rest, b);
    }
  }

  /** A call that looks at rest to its caller: the download is tracked, it is not in its final merge, and
      no pause call is waiting. */
  predicate LooksAtRest(s: State)
    requires WellIndexed(s)
  {
    s.cur.Some? && !s.objs[s.cur.value].status.Finalizing? && s.pauses == []
  }

  ghost predicate Careful(m: Manifest, s: State, acts: seq<Action>)
    requires WellIndexed(s)
    decreases |acts|
  {
    |acts| > 0 ==>
      && Enabled(s, acts[0])
      && (Accepted(m, s, acts[0]) ==> LooksAtRest(s))
      && Careful(m, Step(m, s, acts[0]), acts[1..])
  }

  lemma CarefulFirst(m: Manifest, s: State, a: Action, rest: seq<Action>)
    requires WellIndexed(s) && Enabled(s, a) && (Accepted(m, s, a) ==> LooksAtRest(s)) && Careful(m, Step(m, s, a), rest)
    ensures Careful(m, s, [a] + rest)
  {
    assert ([a] + rest)[1..] == rest;
  }

  lemma {:induction false} CarefulConcat(m: Manifest, s: State, a: seq<Action>, b: seq<Action>)
    requires WellIndexed(s) && After(m, s, a).Some? && Careful(m, s, a) && Careful(m, After(m, s, a).value, b)
    ensures Careful(m, s, a + b)
    decreases |a|
  {
    if |a| == 0 {
      assert a + b == b;
    } else {
      var rest := a[1..];
      assert a == [a[0]] + rest;
      Regroup([a[0]], rest, b);
      CarefulConcat(m, Step(m, s, a[0]), rest, b);
      CarefulFirst(m, s, a[0], rest + b);
    }
  }

  ghost predicate LosesCareful(m: Manifest, s: State, acts: seq<Action>)
    requires WellIndexed(s)
  {
    Careful(m, s, acts) && After(m, s, acts).Some? && !Behind(After(m, s, acts).value, FLUSH_INTERVAL - 1)
  }

  /** Some continuation in which every accepted call looks at rest loses the bound. */
  ghost predicate Breaks(m: Manifest, s: State)
    requires WellIndexed(s)
  {
    exists acts :: LosesCareful(m, s, acts)
  }

  lemma BreaksAfter(m: Manifest, s: State, acts: seq<Action>)
    requires WellIndexed(s) && After(m, s, acts).Some? && Careful(m, s, acts) && Breaks(m, After(m, s, acts).value)
    ensures Breaks(m, s)
  {
    var rest :| LosesCareful(m, After(m, s, acts).value, rest);
    AfterConcat(m, s, acts, rest);
    CarefulConcat(m, s, acts, rest);
    assert LosesCareful(m, s, acts + rest);
  }

  lemma BreaksAfterOne(m: Manifest, s: State, a: Action)
    requires WellIndexed(s) && Enabled(s, a) && (Accepted(m, s, a) ==> LooksAtRest(s)) && Breaks(m, Step(m, s, a))
    ensures Breaks(m, s)
  {
    var rest :| LosesCareful(m, Step(m, s, a), rest);
    AfterFirst(m, s, a, rest);
    CarefulFirst(m, s, a, rest);
    assert LosesCareful(m, s, [a] + rest);
  }

  // ---------------------------------------------------------------- one worker fetches everything

  /** Only worker w moves, on its own record; nobody is told to stop and no pause comes or goes. */
  predicate Alone(s: State, s': State, w: nat) {
    && s'.cur == s.cur && s'.pauses == s.pauses && |s'.objs| == |s.objs| && |s'.workers| == |s.workers| && w < |s.workers|
    && s'.workers[w].obj == s.workers[w].obj && s'.workers[w].stop == s.workers[w].stop && s'.workers[w].cancel == s.workers[w].cancel
    && (forall j :: 0 <= j < |s.workers| && j != w ==> s'.workers[j] == s.workers[j])
    && (forall o :: 0 <= o < |s.objs| && o != s.workers[w].obj ==> s'.objs[o] == s.objs[o])
  }

  lemma AloneTwice(s: State, s1: State, s2: State, w: nat)
    requires Alone(s, s1, w) && Alone(s1, s2, w)
    ensures Alone(s, s2, w)
  {
  }

  predicate Unhindered(s: State, w: nat) {
    w < |s.workers| && !s.workers[w].stop && !s.workers[w].cancel
  }

  /** Worker w is in its final merge, with everything saved, and nothing else has moved. */
  ghost predicate FetchedAll(m: Manifest, s: State, w: nat, acts: seq<Action>)
    requires WellIndexed(s) && w < |s.workers|
  {
    && After(m, s, acts).Some? && Careful(m, s, acts)
    && var s' := After(m, s, acts).value;
    && Alone(s, s', w) && s'.workers[w].pc.Merging? && s'.objs[s'.workers[w].obj].status.Finalizing?
    && s'.disk == Some(Persisted(s'.objs[s'.workers[w].obj]))
  }

  lemma OneMore(m: Manifest, s: State, a: Action, w: nat, rest: seq<Action>)
    requires WellIndexed(s) && Enabled(s, a) && !a.Start? && !a.Resume? && Alone(s, Step(m, s, a), w)
    requires FetchedAll(m, Step(m, s, a), w, rest)
    ensures FetchedAll(m, s, w, [a] + rest)
  {
    AfterFirst(m, s, a, rest);
    CarefulFirst(m, s, a, rest);
    AloneTwice(s, Step(m, s, a), After(m, s, [a] + rest).value, w);
  }

  lemma LoopStep(m: Manifest, s: State, w: nat)
    requires WellIndexed(s) && Unhindered(s, w) && s.workers[w].pc.Head? && |s.workers[w].todo| > 0
    ensures Enabled(s, Run(w))
    ensures var s' := Step(m, s, Run(w));
            && Alone(s, s', w) && s'.workers[w].pc.Fetching? && s'.workers[w].todo == s.workers[w].todo[1..]
  {
  }

  lemma ArrivalStep(m: Manifest, s: State, w: nat)
    requires WellIndexed(s) && Unhindered(s, w) && s.workers[w].pc.Fetching?
    ensures Enabled(s, FetchOk(w))
    ensures var s' := Step(m, s, FetchOk(w));
            && Alone(s, s', w) && s'.workers[w].pc.Head? && s'.workers[w].todo == s.workers[w].todo
  {
  }

  /** From the loop head worker w fetches all it has to visit and starts the final merge. */
  lemma {:induction false} FetchAll(m: Manifest, s: State, w: nat) returns (acts: seq<Action>)
    requires WellIndexed(s) && Unhindered(s, w) && s.workers[w].pc.Head?
    ensures FetchedAll(m, s, w, acts)
    decreases |s.workers[w].todo|
  {
    if |s.workers[w].todo| == 0 {
      assert FetchedAll(m, Step(m, s, Run(w)), w, []);
      OneMore(m, s, Run(w), w, []);
      acts := [Run(w)] + [];
    } else {
      LoopStep(m, s, w);
      var s1 := Step(m, s, Run(w));
      ArrivalStep(m, s1, w);
      var rest := FetchAll(m, Step(m, s1, FetchOk(w)), w);
      OneMore(m, s1, FetchOk(w), w, rest);
      OneMore(m, s, Run(w), w, [FetchOk(w)] + rest);
      acts := [Run(w)] + ([FetchOk(w)] + rest);
    }
  }

  lemma FirstFetch(m: Manifest, s: State, w: nat)
    requires Inv(m, s) && Unhindered(s, w) && s.workers[w].pc.Created? && s.objs[s.workers[w].obj].missing != []
    ensures Enabled(s, Run(w)) && Alone(s, Step(m, s, Run(w)), w) && Step(m, s, Run(w)).workers[w].pc.Fetching?
  {
    var missing := s.objs[s.workers[w].obj].missing;
    TodoSpec(m.total, missing);
    assert RecordOk(m, s.objs[s.workers[w].obj]);
    assert missing[0] in missing && missing[0] in Todo(m.total, missing);
  }

  /** The same from its start, on a record with something missing. */
  lemma FetchAllFromStart(m: Manifest, s: State, w: nat) returns (acts: seq<Action>)
    requires Inv(m, s) && Unhindered(s, w) && s.workers[w].pc.Created? && s.objs[s.workers[w].obj].missing != []
    ensures FetchedAll(m, s, w, acts)
  {
    FirstFetch(m, s, w);
    var s1 := Step(m, s, Run(w));
    ArrivalStep(m, s1, w);
    var rest := FetchAll(m, Step(m, s1, FetchOk(w)), w);
    OneMore(m, s1, FetchOk(w), w, rest);
    OneMore(m, s, Run(w), w, [FetchOk(w)] + rest);
    acts := [Run(w)] + ([FetchOk(w)] + rest);
  }

  // ---------------------------------------------------------------- a worker nobody sees

  /** A paused or failed download that looks at rest while worker v has yet to start on its record. */
  ghost predicate Stranded(m: Manifest, s: State, v: nat) {
    && Inv(m, s) && s.cur.Some? && s.pauses == []
    && (s.objs[s.cur.value].status.Paused? || s.objs[s.cur.value].status.Error?)
    && v < |s.workers| && s.workers[v] == Worker(s.cur.value, [], 0, Created, false, false)
  }

  /** A start replaces a record that misses nothing. */
  lemma Replaces(m: Manifest, s: State)
    requires WellIndexed(s) && s.cur.Some? && s.objs[s.cur.value].missing == []
    requires s.objs[s.cur.value].status.Paused? || s.objs[s.cur.value].status.Error?
    ensures var s' := Step(m, s, Start);
            && s'.cur == Some(|s.objs|) && s'.objs == s.objs + [NewRecord(m)]
            && |s'.workers| == |s.workers| + 1 && forall k :: 0 <= k < |s.workers| ==> s'.workers[k] == s.workers[k]
  {
    AcceptedByStatus(m, s, Start);
  }

  /** A worker that starts on a record that misses nothing saves it. */
  lemma SavesWhole(m: Manifest, s: State, v: nat)
    requires WellIndexed(s) && v < |s.workers| && s.workers[v].pc.Created? && !s.workers[v].cancel
    requires s.objs[s.workers[v].obj].missing == []
    ensures Enabled(s, Run(v))
    ensures var s' := Step(m, s, Run(v));
            && s'.cur == s.cur && s'.disk.Some? && s'.disk.value.completed == s.objs[s.workers[v].obj].completed
            && |s'.objs| == |s.objs| && forall o :: 0 <= o < |s.objs| ==> s'.objs[o].completed == s.objs[o].completed
  {
    TodoOfNone(m.total);
  }

  /** With nothing missing a start replaces the record, and the unseen worker then saves the old one. */
  lemma StrandedWhole(m: Manifest, s: State, v: nat)
    requires Stranded(m, s, v) && s.objs[s.cur.value].missing == [] && m.total > 0
    ensures Breaks(m, s)
  {
    NothingMissing(m, s.objs[s.cur.value]);
    Replaces(m, s);
    var s1 := Step(m, s, Start);
    SavesWhole(m, s1, v);
    var s2 := Step(m, s1, Run(v));
    assert s2.objs[|s.objs|].completed == [] && s2.disk.value.completed != [];
    assert LosesCareful(m, s2, []);
    BreaksAfterOne(m, s1, Run(v));
    BreaksAfterOne(m, s, Start);
  }

  /** With something missing a resume adds a second worker; the first fetches the rest and fails to merge,
      and the second is then the unseen one. */
  lemma StrandedMissing(m: Manifest, s: State, v: nat)
    requires Stranded(m, s, v) && s.objs[s.cur.value].missing != [] && m.total > 0
    ensures Breaks(m, s)
  {
    AcceptedByStatus(m, s, Resume(true));
    AcceptedShape(m, s, Resume(true));
    var s1 := Step(m, s, Resume(true));
    StepInv(m, s, Resume(true));
    assert s1.cur == s.cur && s1.objs[s.cur.value].missing == s.objs[s.cur.value].missing;
    assert s1.workers[v] == s.workers[v];
    SecondIsStranded(m, s1, v, |s.workers|);
    BreaksAfterOne(m, s, Resume(true));
  }

  /** Two workers have yet to start on a record that misses something, and no pause waits. */
  lemma SecondIsStranded(m: Manifest, s: State, v: nat, w: nat)
    requires Inv(m, s) && s.cur.Some? && s.pauses == [] && s.objs[s.cur.value].missing != [] && m.total > 0
    requires v < |s.workers| && s.workers[v] == Worker(s.cur.value, [], 0, Created, false, false)
    requires w < |s.workers| && w != v && s.workers[w] == Worker(s.cur.value, [], 0, Created, false, false)
    ensures Breaks(m, s)
  {
    var acts := FetchAllFromStart(m, s, v);
    RunInv(m, s, acts);
    var s2 := After(m, s, acts).value;
    MergeFailsStrands(m, s2, v, w);
    BreaksAfter(m, s, acts);
  }

  lemma MergeFailsStrands(m: Manifest, s: State, v: nat, w: nat)
    requires Inv(m, s) && s.cur.Some? && s.pauses == [] && m.total > 0
    requires v < |s.workers| && s.workers[v].pc.Merging? && s.workers[v].obj == s.cur.value && !s.workers[v].cancel
    requires w < |s.workers| && w != v && s.workers[w] == Worker(s.cur.value, [], 0, Created, false, false)
    ensures Breaks(m, s)
  {
    assert Covers(m, s.objs[s.workers[v].obj], s.workers[v]);
    StepInv(m, s, MergeFails(v));
    var s' := Step(m, s, MergeFails(v));
    assert s'.workers[w] == s.workers[w];
    assert s'.objs[s.cur.value].missing == s.objs[s.cur.value].missing == [];
    StrandedWhole(m, s', w);
    BreaksAfterOne(m, s, MergeFails(v));
  }

  /** The waiting pauses all wake: the download is paused, and nothing else changes for its workers. */
  lemma {:induction false} DrainPauses(m: Manifest, s: State) returns (acts: seq<Action>)
    requires WellIndexed(s) && s.cur.Some?
    requires forall p :: 0 <= p < |s.pauses| ==> s.pauses[p].obj == s.cur.value && !Live(s.workers[s.pauses[p].worker])
    ensures After(m, s, acts).Some? && Careful(m, s, acts)
    ensures var s' := After(m, s, acts).value;
            && s'.cur == s.cur && s'.workers == s.workers && s'.pauses == [] && |s'.objs| == |s.objs|
            && s'.objs[s.cur.value] == s.objs[s.cur.value].(status := if s.pauses == [] then s.objs[s.cur.value].status else Paused)
    decreases |s.pauses|
  {
    if s.pauses == [] {
      acts := [];
    } else {
      var s1 := Step(m, s, PauseWake(0));
      assert s1.pauses == s.pauses[1..];
      var rest := DrainPauses(m, s1);
      acts := [PauseWake(0)] + rest;
      AfterFirst(m, s, PauseWake(0), rest);
      CarefulFirst(m, s, PauseWake(0), rest);
    }
  }

  /** The running worker, which is in its final merge, ends and leaves the download failed or paused. */
  lemma EndMerging(m: Manifest, s: State, k: nat) returns (a: Action)
    requires WellIndexed(s) && k < |s.workers| && s.workers[k].pc.Merging?
    ensures !a.Start? && !a.Resume? && Enabled(s, a)
    ensures var s' := Step(m, s, a);
            && s'.cur == s.cur && s'.pauses == s.pauses && s'.workers == s.workers[k := s.workers[k].(pc := Ended)]
            && |s'.objs| == |s.objs|
            && s'.objs[s.workers[k].obj].missing == s.objs[s.workers[k].obj].missing
            && (s'.objs[s.workers[k].obj].status.Error? || s'.objs[s.workers[k].obj].status.Paused?)
  {
    a := if s.workers[k].cancel then Cancelled(k) else MergeFails(k);
  }

  /** A call that goes on with the tracked record while a worker runs or a pause waits strands its own
      worker. */
  lemma KeptRecordStrands(m: Manifest, s: State, a: Action)
    requires Reached(m, s) && s.cur.Some? && Accepted(m, s, a) && !Idle(s) && m.total > 0
    requires a.Start? ==> s.objs[s.cur.value].missing != []
    ensures Breaks(m, Step(m, s, a))
  {
    AcceptedByStatus(m, s, a);
    AcceptedShape(m, s, a);
    MergingOrEnded(m, s);
    var s1, v := Step(m, s, a), |s.workers|;
    StepInv(m, s, a);
    assert s1.cur == s.cur;
    if NoneLive(s) {
      PausedStrands(m, s1, v);
    } else {
      var k :| 0 <= k < |s.workers| && Live(s.workers[k]);
      assert WorkerFits(s, k, s.objs[s.cur.value].status);
      assert s1.workers[k] == s.workers[k];
      var e := EndMerging(m, s1, k);
      StepInv(m, s1, e);
      var s2 := Step(m, s1, e);
      forall p | 0 <= p < |s2.pauses| ensures s2.pauses[p].obj == s.cur.value && !Live(s2.workers[s2.pauses[p].worker]) {
        assert s2.pauses[p] == s.pauses[p] && s.pauses[p].worker == k;
      }
      PausedStrands(m, s2, v);
      BreaksAfterOne(m, s1, e);
    }
  }

  lemma PausedStrands(m: Manifest, s: State, v: nat)
    requires Inv(m, s) && s.cur.Some? && m.total > 0
    requires v < |s.workers| && s.workers[v] == Worker(s.cur.value, [], 0, Created, false, false)
    requires forall p :: 0 <= p < |s.pauses| ==> s.pauses[p].obj == s.cur.value && !Live(s.workers[s.pauses[p].worker])
    requires s.pauses != [] || s.objs[s.cur.value].status.Paused? || s.objs[s.cur.value].status.Error?
    ensures Breaks(m, s)
  {
    var acts := DrainPauses(m, s);
    RunInv(m, s, acts);
    var s' := After(m, s, acts).value;
    assert Stranded(m, s', v);
    if s'.objs[s'.cur.value].missing == [] {
      StrandedWhole(m, s', v);
    } else {
      StrandedMissing(m, s', v);
    }
    BreaksAfter(m, s, acts);
  }

  /** An accepted call made when the download does not look at rest can lead to the loss of the bound by
      calls that all look at rest, if and only if the file has chunks. So `LooksAtRest` is the weakest
      condition on what the caller sees that protects every file with chunks. */
  lemma CarelessCallInTheEnd(m: Manifest, acts: seq<Action>, a: Action)
    requires After(m, Fresh, acts).Some? && Orderly(m, Fresh, acts)
    requires var s := After(m, Fresh, acts).value; s.cur.Some? && Accepted(m, s, a) && !LooksAtRest(s)
    ensures Breaks(m, Step(m, After(m, Fresh, acts).value, a)) <==> m.total > 0
  {
    var s := After(m, Fresh, acts).value;
    OrderlyReaches(m, acts);
    RestIsVisible(m, acts, a);
    if m.total > 0 {
      if a.Start? && s.objs[s.cur.value].missing == [] {
        ReplacedBreaks(m, s);
      } else {
        KeptRecordStrands(m, s, a);
      }
    } else {
      StepInv(m, s, a);
      ReachedIsSaved(s);
      forall cont ensures !LosesCareful(m, Step(m, s, a), cont) {
        if After(m, Step(m, s, a), cont).Some? {
          EmptyFileIsSafe(m, Step(m, s, a), cont);
        }
      }
    }
  }

  lemma ReplacedBreaks(m: Manifest, s: State)
    requires Reached(m, s) && s.cur.Some? && Accepted(m, s, Start) && !Idle(s)
    requires s.objs[s.cur.value].missing == [] && m.total > 0
    ensures Breaks(m, Step(m, s, Start))
  {
    AcceptedByStatus(m, s, Start);
    NothingMissing(m, s.objs[s.cur.value]);
    var s1 := Step(m, s, Start);
    var a := OldSave(m, s);
    assert After(m, s1, [a]) == After(m, Step(m, s1, a), [a][1..]);
    assert Careful(m, Step(m, s1, a), [a][1..]);
    assert LosesCareful(m, s1, [a]);
  }

  /** Conversely calls that look at rest are at rest, so long as all were: the bound then holds. */
  lemma {:induction false} CarefulIsOrderly(m: Manifest, s: State, acts: seq<Action>)
    requires Reached(m, s) && After(m, s, acts).Some? && Careful(m, s, acts)
    ensures Orderly(m, s, acts)
    decreases |acts|
  {
    if |acts| > 0 {
      if Accepted(m, s, acts[0]) {
        AtRest(m, s, acts[0]);
      }
      StepInv(m, s, acts[0]);
      StepTidy(m, s, acts[0]);
      CarefulIsOrderly(m, Step(m, s, acts[0]), acts[1..]);
    }
  }

  lemma AtRest(m: Manifest, s: State, a: Action)
    requires Reached(m, s) && Accepted(m, s, a) && LooksAtRest(s)
    ensures Idle(s)
  {
    AcceptedByStatus(m, s, a);
    forall k | 0 <= k < |s.workers| ensures !Live(s.workers[k]) {
      assert Live(s.workers[k]) ==> WorkerFits(s, k, s.objs[s.cur.value].status);
    }
  }

  // ---------------------------------------------------------------- downloads that are not tracked

  /** A run whose accepted calls look at rest, or are made when no download is tracked. */
  ghost predicate Trusting(m: Manifest, s: State, acts: seq<Action>)
    requires WellIndexed(s)
    decreases |acts|
  {
    |acts| > 0 ==>
      && Enabled(s, acts[0])
      && (Accepted(m, s, acts[0]) ==> s.cur.None? || LooksAtRest(s))
      && Trusting(m, Step(m, s, acts[0]), acts[1..])
  }

  lemma TrustingFirst(m: Manifest, s: State, a: Action, rest: seq<Action>)
    requires WellIndexed(s) && Enabled(s, a) && (Accepted(m, s, a) ==> s.cur.None? || LooksAtRest(s))
    requires Trusting(m, Step(m, s, a), rest)
    ensures Trusting(m, s, [a] + rest)
  {
    assert ([a] + rest)[1..] == rest;
  }

  lemma {:induction false} CarefulIsTrusting(m: Manifest, s: State, acts: seq<Action>)
    requires WellIndexed(s) && Careful(m, s, acts)
    ensures Trusting(m, s, acts)
    decreases |acts|
  {
    if |acts| > 0 {
      CarefulIsTrusting(m, Step(m, s, acts[0]), acts[1..]);
    }
  }

  /** The start that first made the download, its clearing, and a start of its successor. */
  function Restarted(m: Manifest): State {
    var r, w := NewRecord(m), Worker(0, [], 0, Created, false, false);
    State([r, r], Some(1), Some(r), [w, w.(obj := 1)], [], Some(1), Some(1), {})
  }

  lemma RestartedReached(m: Manifest, rest: seq<Action>)
    requires After(m, Restarted(m), rest).Some? && Trusting(m, Restarted(m), rest)
    ensures var acts := [Start] + ([Clear] + ([Start] + rest));
            After(m, Fresh, acts) == After(m, Restarted(m), rest) && Trusting(m, Fresh, acts)
  {
    var s1 := Step(m, Fresh, Start);
    var s2 := Step(m, s1, Clear);
    assert Step(m, s2, Start) == Restarted(m);
    AfterFirst(m, s2, Start, rest);
    AfterFirst(m, s1, Clear, [Start] + rest);
    AfterFirst(m, Fresh, Start, [Clear] + ([Start] + rest));
    TrustingFirst(m, s2, Start, rest);
    TrustingFirst(m, s1, Clear, [Start] + rest);
    TrustingFirst(m, Fresh, Start, [Clear] + ([Start] + rest));
  }

  ghost predicate LosesTrusting(m: Manifest, acts: seq<Action>) {
    Trusting(m, Fresh, acts) && After(m, Fresh, acts).Some? && !Behind(After(m, Fresh, acts).value, FLUSH_INTERVAL - 1)
  }

  lemma RestartedInv(m: Manifest)
    ensures Inv(m, Restarted(m))
  {
    IndicesSpec(m);
  }

  /** Clearing a download whose worker still runs hides the worker: a start that trusts the empty tracker can
      lose the bound, if and only if the file has chunks. */
  lemma ClearedDownloadBreaks(m: Manifest)
    ensures (exists acts :: LosesTrusting(m, acts)) <==> m.total > 0
  {
    if m.total > 0 {
      var s := Restarted(m);
      RestartedInv(m);
      assert Indices(m.total)[0] == 0;
      var fetch := FetchAllFromStart(m, s, 0);
      RunInv(m, s, fetch);
      var s' := After(m, s, fetch).value;
      assert Covers(m, s'.objs[0], s'.workers[0]);
      NothingMissing(m, s'.objs[0]);
      assert s'.objs[1] == s.objs[1];
      CarefulIsTrusting(m, s, fetch);
      RestartedReached(m, fetch);
      assert LosesTrusting(m, [Start] + ([Clear] + ([Start] + fetch)));
    } else {
      forall acts ensures !LosesTrusting(m, acts) {
        if After(m, Fresh, acts).Some? {
          EmptyFileIsSafe(m, Fresh, acts);
        }
      }
    }
  }

  // ---------------------------------------------------------------- the final merge is reached

  /** For every file with chunks an orderly run reaches the final merge, and a start accepted there breaks
      the bound by itself. */
  lemma StartWhileFinalizing(m: Manifest) returns (acts: seq<Action>)
    requires m.total > 0
    ensures After(m, Fresh, acts).Some? && Orderly(m, Fresh, acts)
    ensures var s := After(m, Fresh, acts).value;
            && s.cur.Some? && s.objs[s.cur.value].status.Finalizing? && s.objs[s.cur.value].missing == []
            && Accepted(m, s, Start) && BreaksAlone(m, Step(m, s, Start))
  {
    var s := Step(m, Fresh, Start);
    StepInv(m, Fresh, Start);
    assert Indices(m.total)[0] == 0;
    assert s.objs[0] == NewRecord(m) && s.workers[0] == Worker(0, [], 0, Created, false, false);
    var fetch := FetchAllFromStart(m, s, 0);
    RunInv(m, s, fetch);
    var s' := After(m, s, fetch).value;
    assert Covers(m, s'.objs[0], s'.workers[0]);
    acts := [Start] + fetch;
    AfterFirst(m, Fresh, Start, fetch);
    FreshStartOrderly(m, fetch);
    AcceptedByStatus(m, s', Start);
    assert Live(s'.workers[0]);
    CarelessCallAlone(m, acts, Start);
  }

  lemma FreshStartOrderly(m: Manifest, rest: seq<Action>)
    requires var s := Step(m, Fresh, Start); After(m, s, rest).Some? && Careful(m, s, rest)
    ensures Orderly(m, Fresh, [Start] + rest)
  {
    var s := Step(m, Fresh, Start);
    assert Reached(m, Fresh);
    StepInv(m, Fresh, Start);
    StepTidy(m, Fresh, Start);
    CarefulIsOrderly(m, s, rest);
    assert ([Start] + rest)[1..] == rest;
  }
}
