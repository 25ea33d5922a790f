/** Exactly which start and resume calls put the crash bound at risk
    (backend/api/download_manager.py:175-339). */
module DownloadCalls {
  import opened Seqs
  import opened Download
  import opened DownloadCrash

  // ---------------------------------------------------------------- what the status tells

  /** A running worker of the tracked download. */
  predicate WorkerFits(s: State, k: nat, status: Status)
    requires k < |s.workers|
  {
    && (status.Downloading? || status.Finalizing?)
    && (status.Finalizing? <==> s.workers[k].pc.Merging?)
    && s.task == Some(k)
    && forall p :: 0 <= p < |s.pauses| ==> s.pauses[p].worker == k
  }

  /** The status tells whether a worker runs, and only while downloading are chunks unsaved. */
  predicate StatusFits(s: State)
    requires WellIndexed(s)
  {
    s.cur.Some? ==>
      var status := s.objs[s.cur.value].status;
      && (forall k :: 0 <= k < |s.workers| && Live(s.workers[k]) ==> WorkerFits(s, k, status))
      && (status.Finalizing? ==> !NoneLive(s))
      && (!status.Downloading? ==> Behind(s, 0))
  }

  predicate Tidy(s: State) {
    Framed(s) && Single(s) && StatusFits(s)
  }

  lemma IdleCallStatus(m: Manifest, s: State, a: Action)
    requires Tidy(s) && Accepted(m, s, a) && Idle(s)
    ensures StatusFits(Step(m, s, a))
  {
    AcceptedShape(m, s, a);
    var s' := Step(m, s, a);
    forall k | 0 <= k < |s'.workers| && Live(s'.workers[k]) ensures k == |s.workers| && WorkerFits(s', k, Downloading) {
    }
  }

  lemma ControlStatus(m: Manifest, s: State, a: Action)
    requires Tidy(s) && Enabled(s, a) && (a.PauseTimeout? || a.Clear? || a.ClearFinished? || a.Crash? || a.Evict?)
    ensures StatusFits(Step(m, s, a))
  {
    if s.cur.Some? && s.objs[s.cur.value].status.Finalizing? {
      var k :| 0 <= k < |s.workers| && Live(s.workers[k]);
      assert !a.Crash? ==> Live(Step(m, s, a).workers[k]);
    }
    var s' := Step(m, s, a);
    if !a.Crash? && s'.cur.Some? {
      forall k | 0 <= k < |s'.workers| && Live(s'.workers[k]) ensures WorkerFits(s', k, s'.objs[s'.cur.value].status) {
        assert WorkerFits(s, k, s.objs[s.cur.value].status);
      }
    }
  }

  lemma PauseStatus(s: State)
    requires Tidy(s)
    ensures StatusFits(PauseDownload(s))
  {
    if s.cur.Some? && s.objs[s.cur.value].status.Downloading? {
      var s' := PauseDownload(s);
      forall k | 0 <= k < |s'.workers| && Live(s'.workers[k]) ensures WorkerFits(s', k, s'.objs[s'.cur.value].status) {
        assert WorkerFits(s, k, Downloading);
      }
    }
  }

  lemma WakeStatus(m: Manifest, s: State, p: nat)
    requires Tidy(s) && Enabled(s, PauseWake(p))
    ensures StatusFits(Step(m, s, PauseWake(p)))
  {
    if s.cur.Some? {
      var s' := Step(m, s, PauseWake(p));
      WakeKeeps(m, s, p);
      forall k | 0 <= k < |s'.workers| ensures !Live(s'.workers[k]) {
        OthersEnded(s, p, k);
      }
    }
  }

  lemma OthersEnded(s: State, p: nat, k: nat)
    requires Tidy(s) && s.cur.Some? && Enabled(s, PauseWake(p)) && k < |s.workers|
    ensures !Live(s.workers[k])
  {
  }

  lemma RunStatus(m: Manifest, s: State, w: nat)
    requires Tidy(s) && Enabled(s, Run(w))
    ensures StatusFits(RunWorker(m, s, w))
  {
    if s.cur.Some? {
      var s' := RunWorker(m, s, w);
      assert WorkerFits(s, w, s.objs[s.cur.value].status);
      assert s'.cur == s.cur && s.workers[w].obj == s.cur.value;
      forall k | 0 <= k < |s'.workers| && Live(s'.workers[k]) ensures k == w && WorkerFits(s', k, s'.objs[s'.cur.value].status) {
        assert Live(s.workers[k]);
      }
      if s'.objs[s'.cur.value].status.Finalizing? {
        assert Live(s'.workers[w]) && Behind(s', 0);
      }
    }
  }

  lemma FetchedStatus(s: State, w: nat)
    requires Tidy(s) && Enabled(s, FetchOk(w))
    ensures StatusFits(Fetched(s, w))
  {
    if s.cur.Some? {
      var s' := Fetched(s, w);
      assert WorkerFits(s, w, s.objs[s.cur.value].status);
      forall k | 0 <= k < |s'.workers| && Live(s'.workers[k]) ensures WorkerFits(s', k, s'.objs[s'.cur.value].status) {
        assert WorkerFits(s, k, s.objs[s.cur.value].status);
      }
    }
  }

  lemma EndStatus(s: State, w: nat, status: Status, saveFirst: bool)
    requires Tidy(s) && w < |s.workers| && Live(s.workers[w]) && !status.Finalizing?
    ensures StatusFits(EndWith(s, w, status, saveFirst))
  {
    EndKeeps(s, w, status, saveFirst);
    if s.cur.Some? {
      var s' := EndWith(s, w, status, saveFirst);
      forall k | 0 <= k < |s'.workers| ensures !Live(s'.workers[k]) {
        assert Live(s.workers[k]) ==> k == w;
      }
    }
  }

  lemma CancelledStatus(m: Manifest, s: State, w: nat)
    requires Tidy(s) && Enabled(s, Cancelled(w))
    ensures StatusFits(Step(m, s, Cancelled(w)))
  {
    if s.workers[w].pc.Created? {
      if s.cur.Some? {
        var s' := Step(m, s, Cancelled(w));
        assert WorkerFits(s, w, s.objs[s.cur.value].status);
        forall k | 0 <= k < |s'.workers| ensures !Live(s'.workers[k]) {
          assert Live(s.workers[k]) ==> k == w;
        }
      }
    } else {
      EndStatus(s, w, Paused, false);
    }
  }

  lemma EndingStatus(m: Manifest, s: State, a: Action)
    requires Tidy(s) && Enabled(s, a) && (a.FetchFails? || a.Merged? || a.MergeFails? || a.Cancelled?)
    ensures StatusFits(Step(m, s, a))
  {
    match a
    case FetchFails(w) => EndStatus(s, w, Error, true);
    case MergeFails(w) => EndStatus(s, w, Error, false);
    case Cancelled(w) => CancelledStatus(m, s, w);
    case Merged(w, digest) =>
      if digest != m.fileHash {
        EndStatus(s, w, Error, false);
      } else {
        var o := s.workers[w].obj;
        var s1 := s.(objs := s.objs[o := s.objs[o].(output := Some(digest))]);
        WithOutput(s, o, digest);
        OutputStatus(s, o, digest);
        EndStatus(s1, w, Completed, false);
      }
  }

  lemma OutputStatus(s: State, o: nat, digest: string)
    requires Tidy(s) && o < |s.objs|
    ensures StatusFits(s.(objs := s.objs[o := s.objs[o].(output := Some(digest))]))
  {
    var s' := s.(objs := s.objs[o := s.objs[o].(output := Some(digest))]);
    if s.cur.Some? {
      forall k | 0 <= k < |s'.workers| && Live(s'.workers[k]) ensures WorkerFits(s', k, s'.objs[s'.cur.value].status) {
        assert WorkerFits(s, k, s.objs[s.cur.value].status);
      }
    }
  }

  lemma RefusedStatus(m: Manifest, s: State, a: Action)
    requires Tidy(s) && (a.Start? || a.Resume?) && !Accepted(m, s, a)
    ensures StatusFits(Step(m, s, a))
  {
    RefusedCall(m, s, a);
  }

  lemma StepTidy(m: Manifest, s: State, a: Action)
    requires Tidy(s) && Enabled(s, a) && (Accepted(m, s, a) ==> Idle(s))
    ensures Tidy(Step(m, s, a))
  {
    if Accepted(m, s, a) {
      IdleCall(m, s, a);
      IdleCallStatus(m, s, a);
    } else {
      StepKeeps(m, s, a);
      match a
      case Start => RefusedStatus(m, s, a);
      case Resume(_) => RefusedStatus(m, s, a);
      case Pause => PauseStatus(s);
      case PauseWake(p) => WakeStatus(m, s, p);
      case Run(w) => RunStatus(m, s, w);
      case FetchOk(w) => FetchedStatus(s, w);
      case FetchFails(_) => EndingStatus(m, s, a);
      case Merged(_, _) => EndingStatus(m, s, a);
      case MergeFails(_) => EndingStatus(m, s, a);
      case Cancelled(_) => EndingStatus(m, s, a);
      case _ => ControlStatus(m, s, a);
    }
  }

  lemma {:induction false} TidyRun(m: Manifest, s: State, acts: seq<Action>)
    requires Tidy(s) && After(m, s, acts).Some? && Orderly(m, s, acts)
    ensures Tidy(After(m, s, acts).value)
    decreases |acts|
  {
    if |acts| > 0 {
      StepTidy(m, s, acts[0]);
      TidyRun(m, Step(m, s, acts[0]), acts[1..]);
    }
  }

  /** What an orderly run has reached. */
  ghost predicate Reached(m: Manifest, s: State) {
    Inv(m, s) && Tidy(s)
  }

  lemma OrderlyReaches(m: Manifest, acts: seq<Action>)
    requires After(m, Fresh, acts).Some? && Orderly(m, Fresh, acts)
    ensures Reached(m, After(m, Fresh, acts).value)
  {
    RunInv(m, Fresh, acts);
    TidyRun(m, Fresh, acts);
  }

  /** While a download is tracked its caller can see whether an accepted call is at rest: the status is
      not `finalizing` and no pause call is waiting. */
  lemma RestIsVisible(m: Manifest, acts: seq<Action>, a: Action)
    requires After(m, Fresh, acts).Some? && Orderly(m, Fresh, acts)
    requires After(m, Fresh, acts).value.cur.Some? && Accepted(m, After(m, Fresh, acts).value, a)
    ensures var s := After(m, Fresh, acts).value;
            Idle(s) <==> !s.objs[s.cur.value].status.Finalizing? && s.pauses == []
  {
    var s := After(m, Fresh, acts).value;
    OrderlyReaches(m, acts);
    AcceptedByStatus(m, s, a);
    if !NoneLive(s) {
      var k :| 0 <= k < |s.workers| && Live(s.workers[k]);
      assert WorkerFits(s, k, s.objs[s.cur.value].status);
    }
  }

  // ---------------------------------------------------------------- a single careless call

  /** Some orderly continuation leaves the .resume file a whole flush behind, or no prefix at all. */
  ghost predicate BreaksAlone(m: Manifest, s: State)
    requires WellIndexed(s)
  {
    exists acts :: LosesOrderly(m, s, acts)
  }

  ghost predicate LosesOrderly(m: Manifest, s: State, acts: seq<Action>)
    requires WellIndexed(s)
  {
    Orderly(m, s, acts) && After(m, s, acts).Some? && !Behind(After(m, s, acts).value, FLUSH_INTERVAL - 1)
  }

  /** The tracked download's worker runs only while downloading or in the final merge, with nothing
      missing in the latter. */
  lemma MergingOrEnded(m: Manifest, s: State)
    requires Reached(m, s) && s.cur.Some? && !s.objs[s.cur.value].status.Downloading?
    ensures forall k :: 0 <= k < |s.workers| && Live(s.workers[k]) ==> s.workers[k].pc.Merging?
    ensures !NoneLive(s) ==> s.objs[s.cur.value].missing == []
    ensures Behind(s, 0)
  {
    forall k | 0 <= k < |s.workers| && Live(s.workers[k]) ensures s.workers[k].pc.Merging? {
      assert WorkerFits(s, k, s.objs[s.cur.value].status);
    }
    if !NoneLive(s) {
      var k :| 0 <= k < |s.workers| && Live(s.workers[k]);
      assert Covers(m, s.objs[s.workers[k].obj], s.workers[k]);
    }
  }

  /** A call that goes on with the tracked record keeps the bound. */
  lemma KeptRecordIsSafe(m: Manifest, s: State, a: Action)
    requires Reached(m, s) && s.cur.Some? && Accepted(m, s, a)
    requires a.Start? ==> s.objs[s.cur.value].missing != []
    ensures Safe(Step(m, s, a))
  {
    AcceptedByStatus(m, s, a);
    MergingOrEnded(m, s);
    var o := s.cur.value;
    var s1 := if a.Start? then Save(SetStatus(s, o, Downloading), o) else SetStatus(s, o, Downloading);
    assert Step(m, s, a) == Spawn(s1, o);
    KeptFrame(s, s1);
    SpawnFramed(s1, o);
    if NoneLive(s) {
      SpawnSingle(s1, o);
    } else {
      SpawnQuiet(s1);
    }
  }

  lemma KeptFrame(s: State, s1: State)
    requires Framed(s) && s1.workers == s.workers && s1.pauses == s.pauses && s1.task == s.task && s1.event == s.event
    requires |s1.objs| == |s.objs| && s1.cur == s.cur
    ensures Framed(s1)
  {
    forall k | 0 <= k < |s1.workers| && Live(s1.workers[k]) && s1.workers[k].stop ensures Awaited(s1, k) {
      assert Awaited(s, k);
      SamePauses(s, s1, k);
    }
  }

  /** The completed list of a whole file is not empty. */
  lemma NothingMissing(m: Manifest, r: Record)
    requires RecordOk(m, r) && r.missing == [] && m.total > 0
    ensures r.completed != []
  {
    assert 0 in r.missing || 0 in r.completed;
  }

  lemma NoCalls(m: Manifest, s: State, acts: seq<Action>)
    requires WellIndexed(s) && After(m, s, acts).Some? && forall a :: a in acts ==> !a.Start? && !a.Resume?
    ensures Orderly(m, s, acts)
    decreases |acts|
  {
    if |acts| > 0 {
      NoCalls(m, Step(m, s, acts[0]), acts[1..]);
    }
  }

  /** A start that replaces the record under a running worker or a waiting pause: their next save is of
      the old record. */
  lemma NewRecordBreaks(m: Manifest, s: State)
    requires Reached(m, s) && s.cur.Some? && Accepted(m, s, Start) && !Idle(s)
    requires s.objs[s.cur.value].missing == [] && m.total > 0
    ensures BreaksAlone(m, Step(m, s, Start))
  {
    AcceptedByStatus(m, s, Start);
    MergingOrEnded(m, s);
    NothingMissing(m, s.objs[s.cur.value]);
    var s1 := Step(m, s, Start);
    assert s1.cur == Some(|s.objs|) && s1.objs[|s.objs|] == NewRecord(m);
    var a := OldSave(m, s);
    assert After(m, s1, [a]) == After(m, Step(m, s1, a), [a][1..]);
    NoCalls(m, s1, [a]);
    assert LosesOrderly(m, s1, [a]);
  }

  /** Step a, after the start, saves the old record and leaves the new one tracked. */
  ghost predicate SavesOld(m: Manifest, s: State, a: Action)
    requires WellIndexed(s) && s.cur.Some?
  {
    && !a.Start? && !a.Resume?
    && var s1 := Step(m, s, Start);
    && Enabled(s1, a) && Step(m, s1, a).cur == s1.cur == Some(|s.objs|)
    && |Step(m, s1, a).objs| > |s.objs| && Step(m, s1, a).objs[|s.objs|].completed == []
    && Step(m, s1, a).disk.Some? && Step(m, s1, a).disk.value.completed == s.objs[s.cur.value].completed
  }

  /** The start puts a new record in place of the old one, and its worker beside the others. */
  lemma StartReplaces(m: Manifest, s: State)
    requires WellIndexed(s) && s.cur.Some? && Accepted(m, s, Start) && s.objs[s.cur.value].missing == []
    ensures var s1 := Step(m, s, Start);
            && s1.cur == Some(|s.objs|) && s1.objs == s.objs + [NewRecord(m)] && s1.pauses == s.pauses
            && |s.workers| < |s1.workers| && forall k :: 0 <= k < |s.workers| ==> s1.workers[k] == s.workers[k]
  {
    AcceptedByStatus(m, s, Start);
  }

  lemma OldPauseSaves(m: Manifest, s: State)
    requires Reached(m, s) && s.cur.Some? && Accepted(m, s, Start) && !Idle(s)
    requires s.objs[s.cur.value].missing == [] && s.objs[s.cur.value].completed != []
    requires NoneLive(s)
    ensures SavesOld(m, s, PauseWake(0))
  {
    StartReplaces(m, s);
    var s1 := Step(m, s, Start);
    assert s1.pauses[0] == s.pauses[0] && s.pauses[0].obj == s.cur.value;
    assert !Live(s.workers[s.pauses[0].worker]) && s1.workers[s.pauses[0].worker] == s.workers[s.pauses[0].worker];
  }

  lemma OldWorkerSaves(m: Manifest, s: State, k: nat)
    requires Reached(m, s) && s.cur.Some? && Accepted(m, s, Start) && !Idle(s)
    requires s.objs[s.cur.value].missing == [] && s.objs[s.cur.value].completed != []
    requires k < |s.workers| && Live(s.workers[k])
    ensures SavesOld(m, s, if s.workers[k].cancel then Cancelled(k) else MergeFails(k))
  {
    AcceptedByStatus(m, s, Start);
    MergingOrEnded(m, s);
    StartReplaces(m, s);
    var s1 := Step(m, s, Start);
    assert s1.workers[k] == s.workers[k] && s.workers[k].pc.Merging? && s.workers[k].obj == s.cur.value;
  }

  /** The step with which the old worker, or else the waiting pause, saves the old record. */
  lemma OldSave(m: Manifest, s: State) returns (a: Action)
    requires Reached(m, s) && s.cur.Some? && Accepted(m, s, Start) && !Idle(s)
    requires s.objs[s.cur.value].missing == [] && s.objs[s.cur.value].completed != []
    ensures SavesOld(m, s, a)
  {
    if NoneLive(s) {
      OldPauseSaves(m, s);
      a := PauseWake(0);
    } else {
      var k :| 0 <= k < |s.workers| && Live(s.workers[k]);
      OldWorkerSaves(m, s, k);
      a := if s.workers[k].cancel then Cancelled(k) else MergeFails(k);
    }
  }

  // ---------------------------------------------------------------- files without chunks

  predicate TrackedIsSaved(s: State) {
    s.cur.Some? ==> s.disk.Some?
  }

  lemma StepSaved(m: Manifest, s: State, a: Action)
    requires WellIndexed(s) && TrackedIsSaved(s) && Enabled(s, a)
    ensures TrackedIsSaved(Step(m, s, a))
  {
  }

  lemma {:induction false} AlwaysSaved(m: Manifest, s: State, acts: seq<Action>)
    requires WellIndexed(s) && TrackedIsSaved(s) && After(m, s, acts).Some?
    ensures TrackedIsSaved(After(m, s, acts).value)
    decreases |acts|
  {
    if |acts| > 0 {
      StepSaved(m, s, acts[0]);
      AlwaysSaved(m, Step(m, s, acts[0]), acts[1..]);
    }
  }

  /** A file without chunks has nothing to lose, whatever is called when. */
  lemma EmptyFileIsSafe(m: Manifest, s: State, acts: seq<Action>)
    requires m.total == 0 && Inv(m, s) && TrackedIsSaved(s) && After(m, s, acts).Some?
    ensures Behind(After(m, s, acts).value, 0)
  {
    AlwaysSaved(m, s, acts);
    RunInv(m, s, acts);
    var s' := After(m, s, acts).value;
    if s'.cur.Some? {
      NoChunks(m, s'.objs[s'.cur.value]);
      NoChunks(m, s'.disk.value);
    }
  }

  lemma NoChunks(m: Manifest, r: Record)
    requires m.total == 0 && RecordOk(m, r)
    ensures r.completed == []
  {
    assert ToSet(r.completed) == {};
    DistinctSize(r.completed);
  }

  lemma ReachedIsSaved(s: State)
    requires Tidy(s)
    ensures TrackedIsSaved(s)
  {
    if s.cur.Some? && !NoneLive(s) {
      var k :| 0 <= k < |s.workers| && Live(s.workers[k]);
      assert Behind(s, s.workers[k].since);
    }
  }

  /** A call accepted while a worker runs or a pause waits, with nothing called out of order before or
      after it, can break the bound if and only if it is a start with nothing missing, of a file that
      has chunks. A resume never does by itself. */
  lemma CarelessCallAlone(m: Manifest, acts: seq<Action>, a: Action)
    requires After(m, Fresh, acts).Some? && Orderly(m, Fresh, acts)
    requires var s := After(m, Fresh, acts).value; s.cur.Some? && Accepted(m, s, a) && !Idle(s)
    ensures var s := After(m, Fresh, acts).value;
            BreaksAlone(m, Step(m, s, a)) <==> a.Start? && s.objs[s.cur.value].missing == [] && m.total > 0
  {
    var s := After(m, Fresh, acts).value;
    OrderlyReaches(m, acts);
    if a.Start? && s.objs[s.cur.value].missing == [] && m.total > 0 {
      NewRecordBreaks(m, s);
    } else {
      var s1 := Step(m, s, a);
      forall cont ensures !LosesOrderly(m, s1, cont) {
        if Orderly(m, s1, cont) && After(m, s1, cont).Some? {
          StaysBehind(m, s, a, cont);
        }
      }
    }
  }

  lemma StaysBehind(m: Manifest, s: State, a: Action, cont: seq<Action>)
    requires Reached(m, s) && s.cur.Some? && Accepted(m, s, a)
    requires !(a.Start? && s.objs[s.cur.value].missing == [] && m.total > 0)
    requires Orderly(m, Step(m, s, a), cont) && After(m, Step(m, s, a), cont).Some?
    ensures Behind(After(m, Step(m, s, a), cont).value, FLUSH_INTERVAL - 1)
  {
    if m.total == 0 {
      StepInv(m, s, a);
      ReachedIsSaved(s);
      EmptyFileIsSafe(m, Step(m, s, a), cont);
    } else {
      KeptRecordIsSafe(m, s, a);
      SafeRun(m, Step(m, s, a), cont);
      SafeIsBehind(After(m, Step(m, s, a), cont).value);
    }
  }
}
