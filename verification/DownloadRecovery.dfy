/** Downloads after a crash, and why a tracked download never stands still unseen
    (backend/api/download_manager.py:157-171,175-339,487-520). */
module DownloadRecovery {
  import opened Seqs
  import opened Download
  import opened DownloadCrash
  import opened DownloadCalls
  import opened DownloadLosses

  // ---------------------------------------------------------------- after a crash

  /** A crash leaves no worker and no waiting call. With a .resume file the download is tracked with exactly the
      saved lists and is paused; without one nothing is tracked. The files stay. */
  lemma RecoveredIsPaused(m: Manifest, s: State)
    requires WellIndexed(s)
    ensures var s' := Step(m, s, Crash);
            && s'.workers == [] && s'.pauses == [] && s'.task == s'.event == None
            && s'.disk == s.disk && s'.store == s.store
            && (s'.cur.Some? <==> s.disk.Some?)
            && (s.disk.Some? ==>
                  var r := s'.objs[s'.cur.value];
                  r.status == Paused && r.missing == s.disk.value.missing && r.completed == s.disk.value.completed)
  {
  }

  /** One fresh worker on the tracked record, and no other. */
  predicate OneFreshWorker(s: State) {
    s.cur.Some? && s.workers == [Worker(s.cur.value, [], 0, Created, false, false)]
  }

  /** After a crash with a .resume file, a resume with a manifest, or a start with something missing, goes on with
      the saved lists: one fresh worker on that record. */
  lemma NextCallGoesOn(m: Manifest, s: State, a: Action)
    requires WellIndexed(s) && s.disk.Some?
    requires a == Resume(true) || (a == Start && s.disk.value.missing != [])
    ensures var s' := Step(m, Step(m, s, Crash), a);
            && OneFreshWorker(s') && s'.cur.value < |s'.objs|
            && var r := s'.objs[s'.cur.value];
               r.status == Downloading && r.missing == s.disk.value.missing && r.completed == s.disk.value.completed
  {
    RecoveredIsPaused(m, s);
  }

  /** A start with nothing missing begins anew. */
  lemma NextStartBeginsAnew(m: Manifest, s: State)
    requires WellIndexed(s) && s.disk.Some? && s.disk.value.missing == []
    ensures var s' := Step(m, Step(m, s, Crash), Start);
            OneFreshWorker(s') && s'.cur.value < |s'.objs| && s'.objs[s'.cur.value] == NewRecord(m)
  {
    RecoveredIsPaused(m, s);
  }

  lemma MergesNext(m: Manifest, s: State, w: nat)
    requires WellIndexed(s) && w < |s.workers| && s.workers[w].pc.Merging? && !s.workers[w].cancel
    ensures Enabled(s, Merged(w, m.fileHash))
    ensures var s' := Step(m, s, Merged(w, m.fileHash));
            && s'.cur == s.cur && s.workers[w].obj < |s'.objs| && s'.objs[s.workers[w].obj].status == Completed
            && s'.objs[s.workers[w].obj].output == Some(m.fileHash)
  {
  }

  /** From a fresh worker on the tracked record the download can be completed. */
  lemma FreshWorkerCompletes(m: Manifest, s: State) returns (acts: seq<Action>)
    requires Inv(m, s) && OneFreshWorker(s)
    ensures After(m, s, acts).Some?
    ensures var s' := After(m, s, acts).value;
            s'.cur == s.cur && s'.cur.value < |s'.objs| && s'.objs[s'.cur.value].status == Completed
  {
    var last := Merged(0, m.fileHash);
    if s.objs[s.cur.value].missing == [] {
      TodoOfNone(m.total);
      var s1 := Step(m, s, Run(0));
      MergesNext(m, s1, 0);
      AfterFirst(m, s1, last, []);
      AfterFirst(m, s, Run(0), [last] + []);
      acts := [Run(0)] + ([last] + []);
    } else {
      var fetch := FetchAllFromStart(m, s, 0);
      var s1 := After(m, s, fetch).value;
      MergesNext(m, s1, 0);
      AfterFirst(m, s1, last, []);
      AfterConcat(m, s, fetch, [last] + []);
      acts := fetch + ([last] + []);
    }
  }

  /** Whatever a run has led to: after a crash with a .resume file the download can be resumed and completed, with
      nothing missing and an output with the file's hash. */
  lemma CrashedDownloadCompletes(m: Manifest, before: seq<Action>) returns (acts: seq<Action>)
    requires After(m, Fresh, before).Some? && After(m, Fresh, before).value.disk.Some?
    ensures After(m, Fresh, before + ([Crash] + ([Resume(true)] + acts))).Some?
    ensures var s := After(m, Fresh, before + ([Crash] + ([Resume(true)] + acts))).value;
            && s.cur.Some? && s.objs[s.cur.value].status == Completed && s.objs[s.cur.value].missing == []
            && s.objs[s.cur.value].output == Some(m.fileHash)
  {
    var s := After(m, Fresh, before).value;
    RunInv(m, Fresh, before);
    var s1 := Step(m, s, Crash);
    StepInv(m, s, Crash);
    NextCallGoesOn(m, s, Resume(true));
    var s2 := Step(m, s1, Resume(true));
    StepInv(m, s1, Resume(true));
    acts := FreshWorkerCompletes(m, s2);
    AfterFirst(m, s1, Resume(true), acts);
    AfterFirst(m, s, Crash, [Resume(true)] + acts);
    AfterConcat(m, Fresh, before, [Crash] + ([Resume(true)] + acts));
    RunInv(m, s2, acts);
  }

  // ---------------------------------------------------------------- what the calls do

  /** The record an accepted call finds: the tracked one, or else the one in the .resume file. */
  function FoundRecord(s: State): Option<Record>
    requires WellIndexed(s)
  {
    if s.cur.Some? then Some(s.objs[s.cur.value]) else s.disk
  }

  /** An accepted start goes on with the lists it finds when something is missing, and begins with all chunks missing
      otherwise; either way the .resume file then holds the tracked record, as `downloading`. */
  lemma AcceptedStartEffect(m: Manifest, s: State)
    requires WellIndexed(s) && Accepted(m, s, Start)
    ensures var s' := Step(m, s, Start);
            && s'.cur.Some? && s'.disk == Some(Persisted(s'.objs[s'.cur.value]))
            && var r, found := s'.objs[s'.cur.value], FoundRecord(s);
               && r.status == Downloading
               && if found.Some? && found.value.missing != []
                  then r.missing == found.value.missing && r.completed == found.value.completed
                  else r.missing == seq(m.total, i => i) && r.completed == []
  {
    assert Indices(m.total) == seq(m.total, i => i);
  }

  /** An accepted resume goes on with the lists it finds and leaves the .resume file as it is. */
  lemma AcceptedResumeEffect(m: Manifest, s: State)
    requires WellIndexed(s) && Accepted(m, s, Resume(true))
    ensures var s' := Step(m, s, Resume(true));
            && s'.cur.Some? && s'.disk == s.disk && FoundRecord(s).Some?
            && s'.objs[s'.cur.value] == FoundRecord(s).value.(status := Downloading)
  {
  }

  /** Clearing finished downloads forgets the tracked one and its file if it is completed or failed, and nothing
      else. */
  lemma ClearFinishedEffect(m: Manifest, s: State)
    requires WellIndexed(s)
    ensures var s' := Step(m, s, ClearFinished);
            var finished := s.cur.Some? && (s.objs[s.cur.value].status.Completed? || s.objs[s.cur.value].status.Error?);
            && s'.objs == s.objs && s'.workers == s.workers && s'.pauses == s.pauses && s'.store == s.store
            && (s'.cur == None <==> finished || s.cur == None)
            && (finished ==> s'.disk == None) && (!finished ==> s' == s)
  {
  }

  /** How a worker leaves its record: the lists stay; the status is the given one; the .resume file has the lists, with
      the status before or after. */
  predicate Leaves(s: State, s': State, w: nat, status: Status, savedStatus: Status)
    requires WellIndexed(s) && w < |s.workers|
  {
    var o := s.workers[w].obj;
    && |s'.objs| == |s.objs| && |s'.workers| == |s.workers| && s'.workers[w].pc == Ended
    && s'.objs[o].missing == s.objs[o].missing && s'.objs[o].completed == s.objs[o].completed && s'.objs[o].status == status
    && s'.disk == Some(Persisted(s.objs[o].(status := savedStatus)))
    && forall i :: 0 <= i < |s.objs| && i != o ==> s'.objs[i] == s.objs[i]
  }

  lemma EndWithLeaves(s: State, w: nat, status: Status, saveFirst: bool)
    requires WellIndexed(s) && w < |s.workers|
    ensures Leaves(s, EndWith(s, w, status, saveFirst), w, status, if saveFirst then s.objs[s.workers[w].obj].status else status)
  {
  }

  lemma OutputLeaves(s: State, w: nat, digest: string)
    requires WellIndexed(s) && w < |s.workers|
    ensures var o := s.workers[w].obj;
            Leaves(s, EndWith(s.(objs := s.objs[o := s.objs[o].(output := Some(digest))]), w, Completed, false), w, Completed, Completed)
  {
    var o := s.workers[w].obj;
    var s1 := s.(objs := s.objs[o := s.objs[o].(output := Some(digest))]);
    EndWithLeaves(s1, w, Completed, false);
    assert Persisted(s1.objs[o].(status := Completed)) == Persisted(s.objs[o].(status := Completed));
  }

  /** How every worker ends: a failed fetch saves the progress first and only then says `error`; a failed merge, or one
      with another digest, saves `error`; the right digest saves `completed`; a cancelled worker saves `paused`,
      but one that had not started leaves everything as it is. */
  lemma WorkerEnds(m: Manifest, s: State, a: Action)
    requires WellIndexed(s) && Enabled(s, a)
    ensures a.FetchFails? ==> Leaves(s, Step(m, s, a), a.w, Error, s.objs[s.workers[a.w].obj].status)
    ensures a.MergeFails? ==> Leaves(s, Step(m, s, a), a.w, Error, Error)
    ensures a.Merged? ==>
              var status := if a.digest == m.fileHash then Completed else Error; Leaves(s, Step(m, s, a), a.w, status, status)
    ensures a.Cancelled? ==>
              if s.workers[a.w].pc == Created then Step(m, s, a) == s.(workers := s.workers[a.w := s.workers[a.w].(pc := Ended)])
              else Leaves(s, Step(m, s, a), a.w, Paused, Paused)
  {
    match a
    case FetchFails(w) => EndWithLeaves(s, w, Error, true);
    case MergeFails(w) => EndWithLeaves(s, w, Error, false);
    case Merged(w, digest) =>
      EndWithLeaves(s, w, Error, false);
      OutputLeaves(s, w, digest);
    case Cancelled(w) => EndWithLeaves(s, w, Paused, false);
    case _ =>
  }

  /** A pause of a download that is fetching, with more to fetch: the chunk under way is still kept, no other is
      fetched, and the download ends paused with its lists saved. */
  lemma PauseStops(m: Manifest, s: State, k: nat)
    requires WellIndexed(s) && s.cur.Some? && s.objs[s.cur.value].status.Downloading? && s.pauses == []
    requires s.task == s.event == Some(k) && s.workers[k].pc.Fetching? && !s.workers[k].cancel && s.workers[k].obj == s.cur.value
    requires s.workers[k].todo != []
    ensures var acts := [Pause] + ([FetchOk(k)] + ([Run(k)] + ([PauseWake(0)] + [])));
            && After(m, s, acts).Some?
            && var s', o := After(m, s, acts).value, s.cur.value;
               && s'.cur == s.cur && s'.pauses == [] && |s'.workers| == |s.workers| && !Live(s'.workers[k])
               && s'.objs[o].status == Paused && s'.disk == Some(Persisted(s'.objs[o]))
               && s'.objs[o].missing == Marked(s.objs[o], s.workers[k].pc.index).missing
               && s'.objs[o].completed == Marked(s.objs[o], s.workers[k].pc.index).completed
  {
    var s1 := Step(m, s, Pause);
    StopsAfterChunk(m, s1, k);
    AfterFirst(m, s, Pause, [FetchOk(k)] + ([Run(k)] + ([PauseWake(0)] + [])));
  }

  lemma StopsAfterChunk(m: Manifest, s: State, k: nat)
    requires WellIndexed(s) && s.cur.Some? && k < |s.workers| && s.pauses == [Waiting(s.cur.value, k)]
    requires s.workers[k].pc.Fetching? && !s.workers[k].cancel && s.workers[k].stop && s.workers[k].obj == s.cur.value
    requires s.workers[k].todo != []
    ensures var r := After(m, s, [FetchOk(k)] + ([Run(k)] + ([PauseWake(0)] + []))); var o := s.cur.value;
            && r.Some? && r.value.cur == s.cur && r.value.pauses == [] && |r.value.workers| == |s.workers| && !Live(r.value.workers[k])
            && r.value.objs[o].status == Paused && r.value.disk == Some(Persisted(r.value.objs[o]))
            && r.value.objs[o].missing == Marked(s.objs[o], s.workers[k].pc.index).missing
            && r.value.objs[o].completed == Marked(s.objs[o], s.workers[k].pc.index).completed
  {
    var s1 := Step(m, s, FetchOk(k));
    var s2 := Step(m, s1, Run(k));
    assert s2.pauses == [Waiting(s.cur.value, k)] && s2.workers[k].pc.Ended?;
    AfterFirst(m, s2, PauseWake(0), []);
    AfterFirst(m, s1, Run(k), [PauseWake(0)] + []);
    AfterFirst(m, s, FetchOk(k), [Run(k)] + ([PauseWake(0)] + []));
  }

  lemma CancelEnds(m: Manifest, s: State, k: nat)
    requires WellIndexed(s) && k < |s.workers| && Live(s.workers[k]) && s.workers[k].cancel
    ensures Enabled(s, Cancelled(k))
    ensures var s', o := Step(m, s, Cancelled(k)), s.workers[k].obj;
            && s'.pauses == s.pauses && |s'.workers| == |s.workers| && !Live(s'.workers[k]) && |s'.objs| == |s.objs|
            && forall i :: 0 <= i < |s.objs| ==> s'.objs[i].missing == s.objs[i].missing && s'.objs[i].completed == s.objs[i].completed
  {
  }

  /** A pause that has waited too long cancels its worker, which ends at its next await, and then gets through: the
      download is paused and its lists are saved. */
  lemma PauseGetsThrough(m: Manifest, s: State, p: nat)
    requires WellIndexed(s) && p < |s.pauses| && Live(s.workers[s.pauses[p].worker])
    ensures var k, o := s.pauses[p].worker, s.pauses[p].obj;
            var acts := [PauseTimeout(p)] + ([Cancelled(k)] + ([PauseWake(p)] + []));
            && After(m, s, acts).Some?
            && var s' := After(m, s, acts).value;
               && |s'.objs| == |s.objs| && |s'.workers| == |s.workers| && !Live(s'.workers[k]) && s'.pauses == RemoveAt(s.pauses, p)
               && s'.objs[o].status == Paused && s'.disk == Some(Persisted(s'.objs[o]))
               && s'.objs[o].missing == s.objs[o].missing && s'.objs[o].completed == s.objs[o].completed
  {
    var k := s.pauses[p].worker;
    var s1 := Step(m, s, PauseTimeout(p));
    var s2 := Step(m, s1, Cancelled(k));
    CancelEnds(m, s1, k);
    AfterFirst(m, s2, PauseWake(p), []);
    AfterFirst(m, s1, Cancelled(k), [PauseWake(p)] + []);
    AfterFirst(m, s, PauseTimeout(p), [Cancelled(k)] + ([PauseWake(p)] + []));
  }

  // ---------------------------------------------------------------- who attends to a download

  predicate WorksOn(s: State, k: nat, o: nat) {
    k < |s.workers| && Live(s.workers[k]) && s.workers[k].obj == o
  }

  predicate PausesOn(s: State, p: nat, o: nat) {
    p < |s.pauses| && s.pauses[p].obj == o
  }

  predicate MergesOn(s: State, k: nat, o: nat) {
    WorksOn(s, k, o) && s.workers[k].pc.Merging?
  }

  /** A live worker is on the record, or a pause of it waits. */
  predicate Attended(s: State, o: nat) {
    (exists k :: 0 <= k < |s.workers| && WorksOn(s, k, o)) || (exists p :: 0 <= p < |s.pauses| && PausesOn(s, p, o))
  }

  predicate InMerge(s: State, o: nat) {
    exists k :: 0 <= k < |s.workers| && MergesOn(s, k, o)
  }

  /** The status of the tracked record does not claim work that nobody does. */
  predicate Truthful(s: State)
    requires WellIndexed(s)
  {
    s.cur.Some? ==>
      && (s.objs[s.cur.value].status.Downloading? ==> Attended(s, s.cur.value))
      && (s.objs[s.cur.value].status.Finalizing? ==> InMerge(s, s.cur.value))
  }

  /** A worker that was told to stop or to cancel is awaited by a pause of its record. */
  predicate HeldBy(s: State, p: nat, k: nat) {
    p < |s.pauses| && k < |s.workers| && s.pauses[p].worker == k && s.pauses[p].obj == s.workers[k].obj
  }

  predicate Held(s: State, k: nat) {
    exists p :: 0 <= p < |s.pauses| && HeldBy(s, p, k)
  }

  predicate StopsAreHeld(s: State) {
    forall k :: 0 <= k < |s.workers| && Live(s.workers[k]) && (s.workers[k].stop || s.workers[k].cancel) ==> Held(s, k)
  }

  /** The task and the event are those of a worker on the tracked record; a waiting pause is about the record
      of its worker. */
  predicate Linked(s: State)
    requires WellIndexed(s)
  {
    && s.event == s.task
    && (s.task.Some? ==> s.cur == Some(s.workers[s.task.value].obj))
    && (forall p :: 0 <= p < |s.pauses| ==> s.pauses[p].obj == s.workers[s.pauses[p].worker].obj)
  }

  predicate Watched(s: State) {
    WellIndexed(s) && Linked(s) && StopsAreHeld(s) && Truthful(s)
  }

  lemma StillHeld(s: State, s': State, k: nat)
    requires Held(s, k) && k < |s'.workers| && s.pauses <= s'.pauses && s'.workers[k].obj == s.workers[k].obj
    ensures Held(s', k)
  {
    var p :| 0 <= p < |s.pauses| && HeldBy(s, p, k);
    assert HeldBy(s', p, k);
  }

  lemma StillAttended(s: State, s': State, o: nat)
    requires Attended(s, o) && s.pauses <= s'.pauses && |s.workers| <= |s'.workers|
    requires forall k :: 0 <= k < |s.workers| && Live(s.workers[k]) && s.workers[k].obj == o ==>
               s'.workers[k].obj == o && (Live(s'.workers[k]) || Held(s', k))
    ensures Attended(s', o)
  {
    if k :| 0 <= k < |s.workers| && WorksOn(s, k, o) {
      if Live(s'.workers[k]) {
        assert WorksOn(s', k, o);
      } else {
        var p :| 0 <= p < |s'.pauses| && HeldBy(s', p, k);
        assert PausesOn(s', p, o);
      }
    } else {
      var p :| 0 <= p < |s.pauses| && PausesOn(s, p, o);
      assert PausesOn(s', p, o);
    }
  }

  lemma StillInMerge(s: State, s': State, o: nat)
    requires InMerge(s, o) && |s.workers| <= |s'.workers|
    requires forall k :: 0 <= k < |s.workers| && MergesOn(s, k, o) ==> MergesOn(s', k, o)
    ensures InMerge(s', o)
  {
    var k :| 0 <= k < |s.workers| && MergesOn(s, k, o);
    assert MergesOn(s', k, o);
  }

  // ---------------------------------------------------------------- every step keeps it

  lemma AcceptedWatched(m: Manifest, s: State, a: Action)
    requires Watched(s) && (a.Start? || a.Resume?) && Accepted(m, s, a)
    ensures Watched(Step(m, s, a))
  {
    var s' := Step(m, s, a);
    AcceptedShape(m, s, a);
    forall k | 0 <= k < |s'.workers| && Live(s'.workers[k]) && (s'.workers[k].stop || s'.workers[k].cancel) ensures Held(s', k) {
      assert k < |s.workers| && s'.workers[k] == s.workers[k];
      StillHeld(s, s', k);
    }
    assert WorksOn(s', |s.workers|, s'.cur.value);
  }

  lemma RefusedWatched(m: Manifest, s: State, a: Action)
    requires Watched(s) && (a.Start? || a.Resume?) && !Accepted(m, s, a)
    ensures Watched(Step(m, s, a))
  {
    var s' := Step(m, s, a);
    RefusedCall(m, s, a);
    forall k | 0 <= k < |s'.workers| && Live(s'.workers[k]) && (s'.workers[k].stop || s'.workers[k].cancel) ensures Held(s', k) {
      StillHeld(s, s', k);
    }
  }

  lemma PauseWatched(s: State)
    requires Watched(s)
    ensures Watched(PauseDownload(s))
  {
    var s' := PauseDownload(s);
    if s' != s {
      forall k | 0 <= k < |s'.workers| && Live(s'.workers[k]) && (s'.workers[k].stop || s'.workers[k].cancel) ensures Held(s', k) {
        if s.task == Some(k) {
          assert HeldBy(s', |s.pauses|, k);
        } else {
          assert Held(s, k);
          StillHeld(s, s', k);
        }
      }
      if s'.pauses != s.pauses {
        assert PausesOn(s', |s.pauses|, s.cur.value);
      }
    }
  }

  lemma TimeoutWatched(m: Manifest, s: State, p: nat)
    requires Watched(s) && Enabled(s, PauseTimeout(p))
    ensures Watched(Step(m, s, PauseTimeout(p)))
  {
    var s' := Step(m, s, PauseTimeout(p));
    forall k | 0 <= k < |s'.workers| && Live(s'.workers[k]) && (s'.workers[k].stop || s'.workers[k].cancel) ensures Held(s', k) {
      if k == s.pauses[p].worker {
        assert HeldBy(s', p, k);
      } else {
        StillHeld(s, s', k);
      }
    }
    if s.cur.Some? {
      if Attended(s, s.cur.value) {
        StillAttended(s, s', s.cur.value);
      }
      if InMerge(s, s.cur.value) {
        StillInMerge(s, s', s.cur.value);
      }
    }
  }

  lemma OtherPause(s: State, s': State, p: nat, q: nat)
    requires p < |s.pauses| && q < |s.pauses| && p != q && s'.pauses == RemoveAt(s.pauses, p)
    ensures var r := if q < p then q else q - 1; 0 <= r < |s'.pauses| && s'.pauses[r] == s.pauses[q]
  {
  }

  lemma WakeWatched(m: Manifest, s: State, p: nat)
    requires Watched(s) && Enabled(s, PauseWake(p))
    ensures Watched(Step(m, s, PauseWake(p)))
  {
    var s' := Step(m, s, PauseWake(p));
    assert s'.workers == s.workers && s'.cur == s.cur && s'.pauses == RemoveAt(s.pauses, p);
    forall k | 0 <= k < |s'.workers| && Live(s'.workers[k]) && (s'.workers[k].stop || s'.workers[k].cancel) ensures Held(s', k) {
      assert Held(s, k);
      var q :| 0 <= q < |s.pauses| && HeldBy(s, q, k);
      OtherPause(s, s', p, q);
      assert HeldBy(s', if q < p then q else q - 1, k);
    }
    if s.cur.Some? && s.cur.value != s.pauses[p].obj {
      WakeElsewhere(s, s', p, s.cur.value);
    }
  }

  lemma WakeElsewhere(s: State, s': State, p: nat, o: nat)
    requires p < |s.pauses| && s.pauses[p].obj != o && s'.workers == s.workers && s'.pauses == RemoveAt(s.pauses, p)
    ensures Attended(s, o) ==> Attended(s', o)
    ensures InMerge(s, o) ==> InMerge(s', o)
  {
    if Attended(s, o) {
      if k :| 0 <= k < |s.workers| && WorksOn(s, k, o) {
        assert WorksOn(s', k, o);
      } else {
        var q :| 0 <= q < |s.pauses| && PausesOn(s, q, o);
        OtherPause(s, s', p, q);
        assert PausesOn(s', if q < p then q else q - 1, o);
      }
    }
    if InMerge(s, o) {
      StillInMerge(s, s', o);
    }
  }

  lemma ForgetWatched(m: Manifest, s: State, a: Action)
    requires Watched(s) && (a.Clear? || a.ClearFinished? || a.Crash? || a.Evict?)
    ensures Watched(Step(m, s, a))
  {
    var s' := Step(m, s, a);
    if !a.Crash? {
      forall k | 0 <= k < |s'.workers| && Live(s'.workers[k]) && (s'.workers[k].stop || s'.workers[k].cancel) ensures Held(s', k) {
        StillHeld(s, s', k);
      }
      if s'.cur.Some? {
        assert s'.cur == s.cur && s'.objs == s.objs && s'.workers == s.workers && s'.pauses == s.pauses;
        if Attended(s, s.cur.value) {
          StillAttended(s, s', s.cur.value);
        }
        if InMerge(s, s.cur.value) {
          StillInMerge(s, s', s.cur.value);
        }
      }
    }
  }

  /** A step that moves worker w alone, and only touches its record. */
  predicate Moves(s: State, s': State, w: nat) {
    && w < |s.workers| && |s'.workers| == |s.workers| && s'.pauses == s.pauses && s'.cur == s.cur
    && s'.task == s.task && s'.event == s.event && |s'.objs| == |s.objs|
    && s'.workers[w].obj == s.workers[w].obj
    && s'.workers[w].stop == s.workers[w].stop && s'.workers[w].cancel == s.workers[w].cancel && Live(s.workers[w])
    && (forall k :: 0 <= k < |s.workers| && k != w ==> s'.workers[k] == s.workers[k])
    && (forall o :: 0 <= o < |s.objs| && o != s.workers[w].obj ==> s'.objs[o].status == s.objs[o].status)
  }

  lemma MovedHolds(s: State, s': State, w: nat)
    requires Watched(s) && WellIndexed(s') && Moves(s, s', w)
    ensures Linked(s') && StopsAreHeld(s')
  {
    forall k | 0 <= k < |s'.workers| && Live(s'.workers[k]) && (s'.workers[k].stop || s'.workers[k].cancel) ensures Held(s', k) {
      assert s'.workers[k].obj == s.workers[k].obj;
      StillHeld(s, s', k);
    }
  }

  /** What the record of the moved worker must say for the step to be truthful. */
  lemma MovedWatched(s: State, s': State, w: nat)
    requires Watched(s) && WellIndexed(s') && Moves(s, s', w)
    requires var status, was := s'.objs[s.workers[w].obj].status, s.objs[s.workers[w].obj].status;
             || (status == was && !s.workers[w].pc.Merging? && (Live(s'.workers[w]) || s.workers[w].stop || s.workers[w].cancel))
             || (status.Finalizing? && s'.workers[w].pc.Merging?)
             || (!status.Finalizing? && !status.Downloading?)
    ensures Watched(s')
  {
    MovedHolds(s, s', w);
    if s.cur.Some? {
      var o := s.cur.value;
      if s.workers[w].obj == o && s'.workers[w].pc.Merging? {
        assert MergesOn(s', w, o);
      }
      if s.workers[w].obj != o
         || (s'.objs[o].status == s.objs[o].status && !s.workers[w].pc.Merging?
             && (Live(s'.workers[w]) || s.workers[w].stop || s.workers[w].cancel)) {
        MovedAttends(s, s', w, o);
      }
    }
  }

  lemma MovedAttends(s: State, s': State, w: nat, o: nat)
    requires Watched(s) && WellIndexed(s') && Moves(s, s', w)
    requires s.workers[w].obj == o ==> Live(s'.workers[w]) || s.workers[w].stop || s.workers[w].cancel
    requires s.workers[w].obj == o ==> !s.workers[w].pc.Merging?
    ensures Attended(s, o) ==> Attended(s', o)
    ensures InMerge(s, o) ==> InMerge(s', o)
  {
    if Attended(s, o) {
      if s.workers[w].obj == o && !Live(s'.workers[w]) {
        assert Held(s, w);
        StillHeld(s, s', w);
      }
      StillAttended(s, s', o);
    }
    if InMerge(s, o) {
      StillInMerge(s, s', o);
    }
  }

  lemma RunWatched(m: Manifest, s: State, w: nat)
    requires Watched(s) && Enabled(s, Run(w))
    ensures Watched(RunWorker(m, s, w))
  {
    var s' := RunWorker(m, s, w);
    assert Moves(s, s', w);
    MovedWatched(s, s', w);
  }

  lemma FetchedWatched(s: State, w: nat)
    requires Watched(s) && Enabled(s, FetchOk(w))
    ensures Watched(Fetched(s, w))
  {
    var s' := Fetched(s, w);
    assert Moves(s, s', w);
    MovedWatched(s, s', w);
  }

  lemma EndWatched(s: State, w: nat, status: Status, saveFirst: bool)
    requires Watched(s) && w < |s.workers| && Live(s.workers[w]) && !status.Downloading? && !status.Finalizing?
    ensures Watched(EndWith(s, w, status, saveFirst))
  {
    var s' := EndWith(s, w, status, saveFirst);
    assert Moves(s, s', w);
    MovedWatched(s, s', w);
  }

  lemma MergedWatched(m: Manifest, s: State, w: nat, digest: string)
    requires Watched(s) && Enabled(s, Merged(w, digest))
    ensures Watched(MergeDone(m, s, w, digest))
  {
    if digest != m.fileHash {
      EndWatched(s, w, Error, false);
    } else {
      var s' := MergeDone(m, s, w, digest);
      assert Moves(s, s', w);
      MovedWatched(s, s', w);
    }
  }

  lemma CancelledWatched(m: Manifest, s: State, w: nat)
    requires Watched(s) && Enabled(s, Cancelled(w))
    ensures Watched(Step(m, s, Cancelled(w)))
  {
    if s.workers[w].pc.Created? {
      var s' := Step(m, s, Cancelled(w));
      assert Moves(s, s', w);
      MovedWatched(s, s', w);
    } else {
      EndWatched(s, w, Paused, false);
    }
  }

  lemma StepWatched(m: Manifest, s: State, a: Action)
    requires Watched(s) && Enabled(s, a)
    ensures Watched(Step(m, s, a))
  {
    if a.Start? || a.Resume? {
      if Accepted(m, s, a) {
        AcceptedWatched(m, s, a);
      } else {
        RefusedWatched(m, s, a);
      }
    } else {
      match a
      case Pause => PauseWatched(s);
      case PauseTimeout(p) => TimeoutWatched(m, s, p);
      case PauseWake(p) => WakeWatched(m, s, p);
      case Run(w) => RunWatched(m, s, w);
      case FetchOk(w) => FetchedWatched(s, w);
      case FetchFails(w) => EndWatched(s, w, Error, true);
      case Merged(w, digest) => MergedWatched(m, s, w, digest);
      case MergeFails(w) => EndWatched(s, w, Error, false);
      case Cancelled(w) => CancelledWatched(m, s, w);
      case _ => ForgetWatched(m, s, a);
    }
  }

  lemma {:induction false} RunIsWatched(m: Manifest, s: State, acts: seq<Action>)
    requires Watched(s) && After(m, s, acts).Some?
    ensures Watched(After(m, s, acts).value)
    decreases |acts|
  {
    if |acts| > 0 {
      StepWatched(m, s, acts[0]);
      RunIsWatched(m, Step(m, s, acts[0]), acts[1..]);
    }
  }

  // ---------------------------------------------------------------- over every run

  /** In every run, with crashes or without: a tracked download says `downloading` only while a live worker is on it
      or a pause of it waits, and `finalizing` only while a live worker is in its final merge. */
  lemma StatusIsTruthful(m: Manifest, acts: seq<Action>)
    requires After(m, Fresh, acts).Some?
    ensures var s := After(m, Fresh, acts).value;
            s.cur.Some? ==>
              && (s.objs[s.cur.value].status.Downloading? ==> Attended(s, s.cur.value))
              && (s.objs[s.cur.value].status.Finalizing? ==> InMerge(s, s.cur.value))
  {
    RunIsWatched(m, Fresh, acts);
  }

  /** So a tracked download that nobody attends to can be started and resumed, unless it is complete. */
  lemma NeverStuck(m: Manifest, acts: seq<Action>)
    requires After(m, Fresh, acts).Some?
    requires After(m, Fresh, acts).value.cur.Some? && !Attended(After(m, Fresh, acts).value, After(m, Fresh, acts).value.cur.value)
    ensures var s := After(m, Fresh, acts).value;
            && (Accepted(m, s, Start) <==> !s.objs[s.cur.value].status.Completed?)
            && (Accepted(m, s, Resume(true)) <==> !s.objs[s.cur.value].status.Completed?)
  {
    var s := After(m, Fresh, acts).value;
    StatusIsTruthful(m, acts);
    AcceptedByStatus(m, s, Start);
    AcceptedByStatus(m, s, Resume(true));
  }

  /** When nothing is tracked the guards believe the .resume file: a start is refused if and only if the file says
      `downloading` or `completed`, whether or not anybody works on it. */
  lemma UntrackedStart(m: Manifest, s: State)
    requires WellIndexed(s) && s.cur.None?
    ensures Accepted(m, s, Start) <==> s.disk.None? || !(s.disk.value.status.Downloading? || s.disk.value.status.Completed?)
    ensures Accepted(m, s, Resume(true)) <==> s.disk.Some? && !(s.disk.value.status.Downloading? || s.disk.value.status.Completed?)
  {
  }

  /** That does happen: a download is cleared while its worker fetches, and the fetch then fails. Nobody works on the
      file any more, but every start and resume is refused, until the node is restarted. */
  lemma StaleFileBlocks(m: Manifest)
    requires m.total > 0
    ensures var acts := [Start] + ([Run(0)] + ([Clear] + ([FetchFails(0)] + [])));
            && After(m, Fresh, acts).Some?
            && var s := After(m, Fresh, acts).value;
               && s.cur.None? && NoneLive(s) && s.pauses == []
               && !Accepted(m, s, Start) && !Accepted(m, s, Resume(true))
               && Accepted(m, Step(m, s, Crash), Start) && Accepted(m, Step(m, s, Crash), Resume(true))
  {
    var s1 := Step(m, Fresh, Start);
    FirstFetches(m, s1);
    var s2 := Step(m, s1, Run(0));
    ClearedThenFails(m, s2);
    AfterFirst(m, s1, Run(0), [Clear] + ([FetchFails(0)] + []));
    AfterFirst(m, Fresh, Start, [Run(0)] + ([Clear] + ([FetchFails(0)] + [])));
    RefusedUntilRestart(m, After(m, s2, [Clear] + ([FetchFails(0)] + [])).value);
  }

  lemma ClearedThenFails(m: Manifest, s: State)
    requires WellIndexed(s) && s.cur.Some? && s.pauses == [] && |s.workers| == 1 && s.workers[0].pc.Fetching? && !s.workers[0].cancel
    requires s.objs[s.workers[0].obj].status.Downloading?
    ensures var r := After(m, s, [Clear] + ([FetchFails(0)] + []));
            && r.Some? && r.value.cur.None? && NoneLive(r.value) && r.value.pauses == []
            && r.value.disk.Some? && r.value.disk.value.status.Downloading?
  {
    var s1 := Step(m, s, Clear);
    AfterFirst(m, s1, FetchFails(0), []);
    AfterFirst(m, s, Clear, [FetchFails(0)] + []);
  }

  lemma RefusedUntilRestart(m: Manifest, s: State)
    requires WellIndexed(s) && s.cur.None? && s.disk.Some? && s.disk.value.status.Downloading?
    ensures !Accepted(m, s, Start) && !Accepted(m, s, Resume(true))
    ensures Accepted(m, Step(m, s, Crash), Start) && Accepted(m, Step(m, s, Crash), Resume(true))
  {
    UntrackedStart(m, s);
    RecoveredIsPaused(m, s);
    AcceptedByStatus(m, Step(m, s, Crash), Start);
    AcceptedByStatus(m, Step(m, s, Crash), Resume(true));
  }

  lemma FirstFetches(m: Manifest, s: State)
    requires m.total > 0 && WellIndexed(s) && |s.workers| == 1 && s.workers[0] == Worker(0, [], 0, Created, false, false)
    requires |s.objs| == 1 && s.objs[0] == NewRecord(m)
    ensures Enabled(s, Run(0))
    ensures var s' := Step(m, s, Run(0));
            s'.workers[0].pc == Fetching(0) && !s'.workers[0].cancel && s' == s.(workers := [s'.workers[0]]) && s'.workers[0].obj == 0
  {
    assert s.objs[0].missing[0] == 0;
    FirstTodo(m.total, s.objs[0].missing);
  }

  /** When chunk 0 is missing it is the first to be visited. */
  lemma {:induction false} FirstTodo(n: nat, missing: seq<nat>)
    requires n > 0 && 0 in missing
    ensures |Todo(n, missing)| > 0 && Todo(n, missing)[0] == 0
  {
    if n > 1 {
      FirstTodo(n - 1, missing);
    } else {
      assert Todo(0, missing) == [];
    }
  }

  // ---------------------------------------------------------------- eviction

  /** Why eviction is excluded where completed chunks are claimed to be stored: a chunk that was fetched and marked
      completed can be evicted, and then it is neither missing nor there. */
  lemma EvictionLosesCompleted(m: Manifest)
    requires m.total > 0
    ensures var acts := [Start] + ([Run(0)] + ([FetchOk(0)] + ([Evict(0)] + [])));
            && After(m, Fresh, acts).Some?
            && var s := After(m, Fresh, acts).value;
               && s.cur == Some(0) && |s.objs| == 1
               && 0 in s.objs[0].completed && 0 !in s.store
  {
    var s1 := Step(m, Fresh, Start);
    FirstFetches(m, s1);
    var s2 := Step(m, s1, Run(0));
    FetchedThenEvicted(m, s2);
    AfterFirst(m, s1, Run(0), [FetchOk(0)] + ([Evict(0)] + []));
    AfterFirst(m, Fresh, Start, [Run(0)] + ([FetchOk(0)] + ([Evict(0)] + [])));
  }

  lemma FetchedThenEvicted(m: Manifest, s: State)
    requires WellIndexed(s) && s.cur == Some(0) && |s.objs| == 1 && |s.workers| == 1
    requires s.workers[0].pc == Fetching(0) && !s.workers[0].cancel && s.workers[0].obj == 0
    ensures var r := After(m, s, [FetchOk(0)] + ([Evict(0)] + []));
            && r.Some? && r.value.cur == Some(0) && |r.value.objs| == 1
            && 0 in r.value.objs[0].completed && 0 !in r.value.store
  {
    var s1 := Step(m, s, FetchOk(0));
    assert 0 in Marked(s.objs[0], 0).completed;
    AfterFirst(m, s1, Evict(0), []);
    AfterFirst(m, s, FetchOk(0), [Evict(0)] + []);
  }
}
