/** How far the .resume file may be behind the tracked download
    (backend/api/download_manager.py:129-138,175-292,357-433). */
module DownloadCrash {
  import opened Seqs
  import opened Download

  /** No worker runs. */
  predicate NoneLive(s: State) {
    forall k :: 0 <= k < |s.workers| ==> !Live(s.workers[k])
  }

  /** No worker runs and no pause call is still waiting. */
  predicate Idle(s: State) {
    NoneLive(s) && s.pauses == []
  }

  /** A start or resume that gets past the guards: it gives the download a worker. */
  predicate Accepted(m: Manifest, s: State, a: Action)
    requires WellIndexed(s)
  {
    (a.Start? && |StartDownload(m, s).workers| > |s.workers|)
    || (a.Resume? && |ResumeDownload(s, a.hasManifest).workers| > |s.workers|)
  }

  /** With a tracked download the guards look at its status only. */
  lemma AcceptedByStatus(m: Manifest, s: State, a: Action)
    requires WellIndexed(s) && s.cur.Some?
    ensures var r := s.objs[s.cur.value];
            Accepted(m, s, a) <==> (a.Start? || (a.Resume? && a.hasManifest)) && !r.status.Downloading? && !r.status.Completed?
  {
  }

  lemma AcceptedStart(m: Manifest, s: State)
    requires WellIndexed(s) && Accepted(m, s, Start)
    ensures var s' := StartDownload(m, s);
            && s'.cur.Some? && s'.objs[s'.cur.value].status.Downloading?
            && s'.workers == s.workers + [Worker(s'.cur.value, [], 0, Created, false, false)]
            && s'.task == s'.event == Some(|s.workers|) && s'.pauses == s.pauses
  {
  }

  lemma AcceptedResume(m: Manifest, s: State, hasManifest: bool)
    requires WellIndexed(s) && Accepted(m, s, Resume(hasManifest))
    ensures var s' := ResumeDownload(s, hasManifest);
            && s'.cur.Some? && s'.objs[s'.cur.value].status.Downloading?
            && s'.workers == s.workers + [Worker(s'.cur.value, [], 0, Created, false, false)]
            && s'.task == s'.event == Some(|s.workers|) && s'.pauses == s.pauses
  {
  }

  /** What an accepted call leaves: the tracked record is downloading, with one fresh worker more. */
  lemma AcceptedShape(m: Manifest, s: State, a: Action)
    requires WellIndexed(s) && Accepted(m, s, a)
    ensures var s' := Step(m, s, a);
            && s'.cur.Some? && s'.objs[s'.cur.value].status.Downloading?
            && s'.workers == s.workers + [Worker(s'.cur.value, [], 0, Created, false, false)]
            && s'.task == s'.event == Some(|s.workers|) && s'.pauses == s.pauses
  {
    if a.Start? {
      AcceptedStart(m, s);
    } else {
      AcceptedResume(m, s, a.hasManifest);
    }
  }

  /** A run in which start and resume are only accepted while nothing runs and no pause waits. */
  ghost predicate Orderly(m: Manifest, s: State, acts: seq<Action>)
    requires WellIndexed(s)
    decreases |acts|
  {
    |acts| > 0 ==>
      && Enabled(s, acts[0])
      && (Accepted(m, s, acts[0]) ==> Idle(s))
      && Orderly(m, Step(m, s, acts[0]), acts[1..])
  }

  /** The completed list of the .resume file is a prefix of the tracked one, shorter by at most `gap`. */
  predicate Behind(s: State, gap: nat)
    requires s.cur.Some? ==> s.cur.value < |s.objs|
  {
    s.cur.Some? ==>
      && s.disk.Some?
      && s.disk.value.completed <= s.objs[s.cur.value].completed
      && |s.objs[s.cur.value].completed| - |s.disk.value.completed| <= gap
  }

  /** Running workers and waiting pauses are about the tracked record. */
  predicate OnTracked(s: State) {
    s.cur.Some? ==>
      && (forall k :: 0 <= k < |s.workers| && Live(s.workers[k]) ==> s.workers[k].obj == s.cur.value)
      && (forall p :: 0 <= p < |s.pauses| ==> s.pauses[p].obj == s.cur.value)
  }

  predicate Awaited(s: State, k: nat) {
    exists p :: 0 <= p < |s.pauses| && s.pauses[p].worker == k
  }

  /** A running worker that was told to stop is awaited by the pause that told it. */
  predicate StopAwaited(s: State) {
    forall k :: 0 <= k < |s.workers| && Live(s.workers[k]) && s.workers[k].stop ==> Awaited(s, k)
  }

  predicate Counted(s: State) {
    && s.task == s.event
    && forall k :: 0 <= k < |s.workers| && Live(s.workers[k]) ==>
         s.workers[k].since < FLUSH_INTERVAL && (s.workers[k].pc.Created? ==> s.workers[k].since == 0)
  }

  predicate Framed(s: State) {
    WellIndexed(s) && OnTracked(s) && StopAwaited(s) && Counted(s)
  }

  /** Nothing is missing, everything is saved, and no running worker fetches. */
  predicate Quiet(s: State)
    requires WellIndexed(s)
  {
    s.cur.Some? ==>
      && s.objs[s.cur.value].missing == [] && Behind(s, 0)
      && forall k :: 0 <= k < |s.workers| && Live(s.workers[k]) ==> s.workers[k].pc.Created? || s.workers[k].pc.Merging?
  }

  /** At most one worker runs, and the .resume file lacks no more than it has fetched since its flush. */
  predicate Single(s: State)
    requires WellIndexed(s)
  {
    s.cur.Some? ==>
      && (forall j, k :: 0 <= j < k < |s.workers| ==> !Live(s.workers[j]) || !Live(s.workers[k]))
      && (forall k :: 0 <= k < |s.workers| && Live(s.workers[k]) ==> Behind(s, s.workers[k].since))
      && (NoneLive(s) ==> Behind(s, if s.pauses == [] then 0 else FLUSH_INTERVAL - 1))
  }

  predicate Safe(s: State) {
    Framed(s) && (Quiet(s) || Single(s))
  }

  lemma SafeIsBehind(s: State)
    requires Safe(s)
    ensures Behind(s, FLUSH_INTERVAL - 1)
    ensures Idle(s) ==> Behind(s, 0)
  {
    if !Quiet(s) && !NoneLive(s) {
      var k :| 0 <= k < |s.workers| && Live(s.workers[k]);
    }
  }

  // ---- control calls

  /** A worker more on record o, when the .resume file lacks nothing of it. */
  lemma SpawnFramed(s: State, o: nat)
    requires WellIndexed(s) && StopAwaited(s) && Counted(s) && o < |s.objs|
    requires forall k :: 0 <= k < |s.workers| && Live(s.workers[k]) ==> s.workers[k].obj == o
    requires forall p :: 0 <= p < |s.pauses| ==> s.pauses[p].obj == o
    ensures Framed(Spawn(s, o))
  {
    var s' := Spawn(s, o);
    forall k | 0 <= k < |s'.workers| && Live(s'.workers[k]) && s'.workers[k].stop ensures Awaited(s', k) {
      assert Awaited(s, k);
      var p :| 0 <= p < |s.pauses| && s.pauses[p].worker == k;
      assert s'.pauses[p].worker == k;
    }
  }

  lemma SpawnSingle(s: State, o: nat)
    requires WellIndexed(s) && NoneLive(s) && o < |s.objs|
    requires s.disk.Some? && s.disk.value.completed == s.objs[o].completed
    ensures Single(Spawn(s, o))
  {
  }

  lemma SpawnQuiet(s: State)
    requires WellIndexed(s) && s.cur.Some? && Quiet(s)
    ensures Quiet(Spawn(s, s.cur.value))
  {
  }

  lemma IdleStart(m: Manifest, s: State)
    requires Safe(s) && Idle(s)
    ensures Framed(StartDownload(m, s)) && (Accepted(m, s, Start) ==> Single(StartDownload(m, s)))
  {
    var (s1, found) := Existing(s);
    if !Accepted(m, s, Start) {
    } else if found.Some? && |s1.objs[found.value].missing| > 0 {
      var s2 := Save(SetStatus(s1, found.value, Downloading), found.value);
      SpawnFramed(s2, found.value);
      SpawnSingle(s2, found.value);
    } else {
      var s2 := Save(s1.(objs := s1.objs + [NewRecord(m)]), |s1.objs|);
      SpawnFramed(s2, |s1.objs|);
      SpawnSingle(s2, |s1.objs|);
    }
  }

  lemma IdleResume(m: Manifest, s: State, hasManifest: bool)
    requires Safe(s) && Idle(s)
    ensures Framed(ResumeDownload(s, hasManifest))
    ensures Accepted(m, s, Resume(hasManifest)) ==> Single(ResumeDownload(s, hasManifest))
  {
    SafeIsBehind(s);
    var (s1, found) := Existing(s);
    if Accepted(m, s, Resume(hasManifest)) {
      var s2 := SetStatus(s1, found.value, Downloading);
      SpawnFramed(s2, found.value);
      SpawnSingle(s2, found.value);
    }
  }

  lemma RefusedStart(m: Manifest, s: State)
    requires WellIndexed(s) && !Accepted(m, s, Start)
    ensures StartDownload(m, s) == Existing(s).0
  {
  }

  lemma RefusedResume(m: Manifest, s: State, hasManifest: bool)
    requires WellIndexed(s) && !Accepted(m, s, Resume(hasManifest))
    ensures ResumeDownload(s, hasManifest) == Existing(s).0
  {
  }

  /** A call that is not accepted changes no worker, no pause and no record, and tracks nothing new. */
  lemma RefusedCall(m: Manifest, s: State, a: Action)
    requires WellIndexed(s) && (a.Start? || a.Resume?) && !Accepted(m, s, a)
    ensures var s' := Step(m, s, a);
            && s' == s.(objs := s'.objs) && s.objs <= s'.objs
            && (s.cur.Some? ==> s' == s)
  {
    if a.Start? {
      RefusedStart(m, s);
    } else {
      RefusedResume(m, s, a.hasManifest);
    }
  }

  lemma RefusedKeeps(m: Manifest, s: State, a: Action)
    requires Framed(s) && (a.Start? || a.Resume?) && !Accepted(m, s, a)
    ensures Framed(Step(m, s, a))
    ensures Quiet(s) ==> Quiet(Step(m, s, a))
    ensures Single(s) ==> Single(Step(m, s, a))
  {
    RefusedCall(m, s, a);
    if s.cur.None? {
      var s' := Step(m, s, a);
      forall k | 0 <= k < |s'.workers| && Live(s'.workers[k]) && s'.workers[k].stop ensures Awaited(s', k) {
        assert Awaited(s, k);
        var p :| 0 <= p < |s.pauses| && s.pauses[p].worker == k;
        assert s'.pauses[p].worker == k;
      }
    }
  }

  /** Waiting pauses keep a stopped worker awaited when only ended workers' pauses go. */
  lemma StillAwaited(s: State, s': State)
    requires StopAwaited(s) && |s'.workers| == |s.workers|
    requires forall k :: 0 <= k < |s.workers| && Live(s'.workers[k]) ==> Live(s.workers[k]) && s'.workers[k].stop == s.workers[k].stop
    requires forall k :: 0 <= k < |s.workers| && Live(s'.workers[k]) && Awaited(s, k) ==> Awaited(s', k)
    ensures StopAwaited(s')
  {
    forall k | 0 <= k < |s'.workers| && Live(s'.workers[k]) && s'.workers[k].stop ensures Awaited(s', k) {
      assert Awaited(s, k);
    }
  }

  lemma SamePauses(s: State, s': State, k: nat)
    requires Awaited(s, k) && s.pauses <= s'.pauses
    ensures Awaited(s', k)
  {
    var p :| 0 <= p < |s.pauses| && s.pauses[p].worker == k;
    assert s'.pauses[p].worker == k;
  }

  lemma PauseFramed(s: State)
    requires Framed(s)
    ensures Framed(PauseDownload(s))
  {
    if s.cur.Some? && s.objs[s.cur.value].status.Downloading? {
      var s' := PauseDownload(s);
      forall k | 0 <= k < |s'.workers| && Live(s'.workers[k]) && s'.workers[k].stop ensures Awaited(s', k) {
        if s.task == Some(k) {
          assert s'.pauses[|s.pauses|].worker == k;
        } else {
          assert Awaited(s, k);
          SamePauses(s, s', k);
        }
      }
    }
  }

  lemma PauseQuiet(s: State)
    requires Framed(s) && Quiet(s)
    ensures Quiet(PauseDownload(s))
  {
  }

  lemma PauseSingle(s: State)
    requires Framed(s) && Single(s)
    ensures Single(PauseDownload(s))
  {
  }

  lemma PauseKeeps(s: State)
    requires Framed(s)
    ensures Quiet(s) ==> Quiet(PauseDownload(s))
    ensures Single(s) ==> Single(PauseDownload(s))
  {
    if Quiet(s) {
      PauseQuiet(s);
    }
    if Single(s) {
      PauseSingle(s);
    }
  }

  lemma TimeoutKeeps(m: Manifest, s: State, p: nat)
    requires Framed(s) && Enabled(s, PauseTimeout(p))
    ensures Framed(Step(m, s, PauseTimeout(p)))
    ensures Quiet(s) ==> Quiet(Step(m, s, PauseTimeout(p)))
    ensures Single(s) ==> Single(Step(m, s, PauseTimeout(p)))
  {
    var s' := Step(m, s, PauseTimeout(p));
    forall k | 0 <= k < |s'.workers| && Live(s'.workers[k]) && Awaited(s, k) ensures Awaited(s', k) {
      SamePauses(s, s', k);
    }
    StillAwaited(s, s');
  }

  lemma WakeFramed(m: Manifest, s: State, p: nat)
    requires Framed(s) && Enabled(s, PauseWake(p))
    ensures Framed(Step(m, s, PauseWake(p)))
  {
    var s' := Step(m, s, PauseWake(p));
    forall k | 0 <= k < |s'.workers| && Live(s'.workers[k]) && Awaited(s, k) ensures Awaited(s', k) {
      var q :| 0 <= q < |s.pauses| && s.pauses[q].worker == k;
      assert s'.pauses[if q < p then q else q - 1] == s.pauses[q];
    }
    StillAwaited(s, s');
  }

  lemma WakeKeeps(m: Manifest, s: State, p: nat)
    requires Framed(s) && Enabled(s, PauseWake(p))
    ensures s.cur.Some? ==> Behind(Step(m, s, PauseWake(p)), 0)
    ensures Quiet(s) ==> Quiet(Step(m, s, PauseWake(p)))
    ensures Single(s) ==> Single(Step(m, s, PauseWake(p)))
  {
    assert s.cur.Some? ==> s.pauses[p].obj == s.cur.value;
  }

  lemma ForgetKeeps(m: Manifest, s: State, a: Action)
    requires Framed(s) && (a.Clear? || a.ClearFinished? || a.Crash? || a.Evict?)
    ensures Framed(Step(m, s, a))
    ensures Quiet(s) && !a.Crash? ==> Quiet(Step(m, s, a))
    ensures Single(s) || a.Crash? ==> Single(Step(m, s, a))
  {
    if !a.Crash? {
      var s' := Step(m, s, a);
      forall k | 0 <= k < |s'.workers| && Live(s'.workers[k]) && Awaited(s, k) ensures Awaited(s', k) {
        SamePauses(s, s', k);
      }
      StillAwaited(s, s');
    }
  }

  // ---- worker steps

  lemma RunFramed(m: Manifest, s: State, w: nat)
    requires Framed(s) && Enabled(s, Run(w))
    ensures Framed(RunWorker(m, s, w))
  {
    var s' := RunWorker(m, s, w);
    forall k | 0 <= k < |s'.workers| && Live(s'.workers[k]) && Awaited(s, k) ensures Awaited(s', k) {
      SamePauses(s, s', k);
    }
    StillAwaited(s, s');
  }

  lemma RunSingle(m: Manifest, s: State, w: nat)
    requires Framed(s) && Enabled(s, Run(w)) && Single(s)
    ensures Single(RunWorker(m, s, w))
  {
    var s' := RunWorker(m, s, w);
    if s.cur.Some? {
      assert Behind(s, s.workers[w].since);
      if !Live(s'.workers[w]) {
        assert Awaited(s, w);
        assert s'.pauses != [] && NoneLive(s');
      } else {
        forall k | 0 <= k < |s'.workers| && Live(s'.workers[k]) ensures k == w && Behind(s', s'.workers[k].since) {
        }
      }
    }
  }

  lemma RunQuiet(m: Manifest, s: State, w: nat)
    requires Framed(s) && Enabled(s, Run(w)) && Quiet(s)
    ensures Quiet(RunWorker(m, s, w))
  {
    if s.cur.Some? {
      TodoOfNone(m.total);
    }
  }

  lemma {:induction false} TodoOfNone(n: nat)
    ensures Todo(n, []) == []
  {
    if n > 0 {
      TodoOfNone(n - 1);
    }
  }

  lemma FetchedFramed(s: State, w: nat)
    requires Framed(s) && Enabled(s, FetchOk(w))
    ensures Framed(Fetched(s, w))
  {
    var s' := Fetched(s, w);
    forall k | 0 <= k < |s'.workers| && Live(s'.workers[k]) && Awaited(s, k) ensures Awaited(s', k) {
      SamePauses(s, s', k);
    }
    StillAwaited(s, s');
  }

  lemma FetchedBehind(s: State, w: nat)
    requires Framed(s) && Enabled(s, FetchOk(w)) && Behind(s, s.workers[w].since)
    ensures Behind(Fetched(s, w), Fetched(s, w).workers[w].since)
  {
  }

  lemma FetchedKeeps(s: State, w: nat)
    requires Framed(s) && Enabled(s, FetchOk(w))
    ensures Quiet(s) ==> Quiet(Fetched(s, w))
    ensures Single(s) ==> Single(Fetched(s, w))
  {
    if s.cur.Some? && Single(s) {
      FetchedBehind(s, w);
      var s' := Fetched(s, w);
      forall k | 0 <= k < |s'.workers| && Live(s'.workers[k]) ensures k == w {
        assert Live(s.workers[k]);
      }
      assert Live(s'.workers[w]);
    }
  }

  /** An arrived chunk leaves the .resume file behind by no more than the chunks since the flush. */
  lemma FetchedGap(s: State, w: nat)
    requires WellIndexed(s) && Enabled(s, FetchOk(w))
    ensures var s' := Fetched(s, w);
            Framed(s) && Single(s) ==> Behind(s', s'.workers[w].since) && s'.workers[w].since < FLUSH_INTERVAL
  {
    if Framed(s) && Single(s) {
      FetchedBehind(s, w);
    }
  }

  lemma EndFramed(s: State, w: nat, status: Status, saveFirst: bool)
    requires Framed(s) && w < |s.workers|
    ensures Framed(EndWith(s, w, status, saveFirst))
  {
    var s' := EndWith(s, w, status, saveFirst);
    forall k | 0 <= k < |s'.workers| && Live(s'.workers[k]) && Awaited(s, k) ensures Awaited(s', k) {
      SamePauses(s, s', k);
    }
    StillAwaited(s, s');
  }

  lemma EndKeeps(s: State, w: nat, status: Status, saveFirst: bool)
    requires Framed(s) && w < |s.workers| && Live(s.workers[w])
    ensures s.cur.Some? ==> Behind(EndWith(s, w, status, saveFirst), 0)
    ensures Quiet(s) ==> Quiet(EndWith(s, w, status, saveFirst))
    ensures Single(s) ==> Single(EndWith(s, w, status, saveFirst))
  {
  }

  lemma DropFramed(s: State, w: nat)
    requires Framed(s) && w < |s.workers| && s.workers[w].pc.Created?
    ensures Framed(SetWorker(s, w, s.workers[w].(pc := Ended)))
  {
    var s' := SetWorker(s, w, s.workers[w].(pc := Ended));
    forall k | 0 <= k < |s'.workers| && Live(s'.workers[k]) && Awaited(s, k) ensures Awaited(s', k) {
      SamePauses(s, s', k);
    }
    StillAwaited(s, s');
  }

  lemma DropKeeps(s: State, w: nat)
    requires Framed(s) && w < |s.workers| && s.workers[w].pc.Created?
    ensures Quiet(s) ==> Quiet(SetWorker(s, w, s.workers[w].(pc := Ended)))
    ensures Single(s) ==> Single(SetWorker(s, w, s.workers[w].(pc := Ended)))
  {
    if s.cur.Some? && Single(s) {
      assert Behind(s, s.workers[w].since) && s.workers[w].since == 0;
    }
  }

  lemma WithOutput(s: State, o: nat, digest: string)
    requires Framed(s) && o < |s.objs|
    ensures var s' := s.(objs := s.objs[o := s.objs[o].(output := Some(digest))]);
            Framed(s') && (Quiet(s) ==> Quiet(s')) && (Single(s) ==> Single(s'))
  {
    var s' := s.(objs := s.objs[o := s.objs[o].(output := Some(digest))]);
    forall k | 0 <= k < |s'.workers| && Live(s'.workers[k]) && Awaited(s, k) ensures Awaited(s', k) {
      SamePauses(s, s', k);
    }
    StillAwaited(s, s');
  }

  lemma EndingKeeps(m: Manifest, s: State, a: Action)
    requires Framed(s) && Enabled(s, a) && (a.FetchFails? || a.Merged? || a.MergeFails? || a.Cancelled?)
    ensures Framed(Step(m, s, a))
    ensures Quiet(s) ==> Quiet(Step(m, s, a))
    ensures Single(s) ==> Single(Step(m, s, a))
  {
    var w := a.w;
    match a
    case FetchFails(_) => EndFramed(s, w, Error, true); EndKeeps(s, w, Error, true);
    case MergeFails(_) => EndFramed(s, w, Error, false); EndKeeps(s, w, Error, false);
    case Merged(_, digest) =>
      if digest != m.fileHash {
        EndFramed(s, w, Error, false);
        EndKeeps(s, w, Error, false);
      } else {
        var o := s.workers[w].obj;
        var s1 := s.(objs := s.objs[o := s.objs[o].(output := Some(digest))]);
        WithOutput(s, o, digest);
        EndFramed(s1, w, Completed, false);
        EndKeeps(s1, w, Completed, false);
      }
    case Cancelled(_) =>
      if s.workers[w].pc.Created? {
        DropFramed(s, w);
        DropKeeps(s, w);
      } else {
        EndFramed(s, w, Paused, false);
        EndKeeps(s, w, Paused, false);
      }
  }

  /** Every step but an accepted call keeps whichever of the two situations holds. */
  lemma StepKeeps(m: Manifest, s: State, a: Action)
    requires Framed(s) && Enabled(s, a) && !Accepted(m, s, a)
    ensures Framed(Step(m, s, a))
    ensures Quiet(s) && !a.Crash? ==> Quiet(Step(m, s, a))
    ensures Single(s) || a.Crash? ==> Single(Step(m, s, a))
  {
    match a
    case Start => RefusedKeeps(m, s, a);
    case Resume(_) => RefusedKeeps(m, s, a);
    case Pause => PauseFramed(s); PauseKeeps(s);
    case PauseTimeout(p) => TimeoutKeeps(m, s, p);
    case PauseWake(p) => WakeFramed(m, s, p); WakeKeeps(m, s, p);
    case Clear => ForgetKeeps(m, s, a);
    case ClearFinished => ForgetKeeps(m, s, a);
    case Crash => ForgetKeeps(m, s, a);
    case Evict(_) => ForgetKeeps(m, s, a);
    case Run(w) =>
      RunFramed(m, s, w);
      if Single(s) {
        RunSingle(m, s, w);
      }
      if Quiet(s) {
        RunQuiet(m, s, w);
      }
    case FetchOk(w) => FetchedFramed(s, w); FetchedKeeps(s, w);
    case _ => EndingKeeps(m, s, a);
  }

  /** An accepted call at rest leaves one fresh worker. */
  lemma IdleCall(m: Manifest, s: State, a: Action)
    requires Safe(s) && Accepted(m, s, a) && Idle(s)
    ensures Framed(Step(m, s, a)) && Single(Step(m, s, a))
  {
    if a.Start? {
      IdleStart(m, s);
    } else {
      IdleResume(m, s, a.hasManifest);
    }
  }

  lemma {:induction false} SafeRun(m: Manifest, s: State, acts: seq<Action>)
    requires Safe(s) && After(m, s, acts).Some? && Orderly(m, s, acts)
    ensures Safe(After(m, s, acts).value)
    decreases |acts|
  {
    if |acts| > 0 {
      if Accepted(m, s, acts[0]) {
        IdleCall(m, s, acts[0]);
      } else {
        StepKeeps(m, s, acts[0]);
      }
      SafeRun(m, Step(m, s, acts[0]), acts[1..]);
    }
  }

  /** When start and resume are only accepted while nothing runs and no pause waits, the .resume file's
      completed list is at every await a prefix of the tracked one, at most FLUSH_INTERVAL - 1 shorter,
      and equal to it once nothing runs: a crash loses at most that many chunks. */
  lemma CrashLosesLessThanAFlush(m: Manifest, acts: seq<Action>)
    requires After(m, Fresh, acts).Some? && Orderly(m, Fresh, acts)
    ensures Behind(After(m, Fresh, acts).value, FLUSH_INTERVAL - 1)
    ensures Idle(After(m, Fresh, acts).value) ==> Behind(After(m, Fresh, acts).value, 0)
  {
    SafeRun(m, Fresh, acts);
    SafeIsBehind(After(m, Fresh, acts).value);
  }
}
